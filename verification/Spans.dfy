/** Byte spans and their in-place merge (mergeSpans of internal/filter/filter.go). */
module Spans {
  import opened Sorting

  datatype Span = Span(lo: nat, hi: nat)

  predicate Inside(sp: Span, i: int) {
    sp.lo <= i < sp.hi
  }

  ghost predicate Covers(spans: seq<Span>, i: int) {
    exists sp :: sp in spans && Inside(sp, i)
  }

  ghost predicate Nonempty(spans: seq<Span>) {
    forall sp :: sp in spans ==> sp.lo < sp.hi
  }

  ghost predicate SortedByStart(spans: seq<Span>) {
    forall i, j :: 0 <= i < j < |spans| ==> spans[i].lo <= spans[j].lo
  }

  /** Sorted, nonempty, and with at least one byte between neighbours. */
  ghost predicate Normal(spans: seq<Span>) {
    Nonempty(spans) && forall i, j :: 0 <= i < j < |spans| ==> spans[i].hi < spans[j].lo
  }

  ghost predicate SameUnion(a: seq<Span>, b: seq<Span>) {
    forall i :: Covers(a, i) <==> Covers(b, i)
  }

  // ---- sorting ----

  predicate StartsFirst(a: Span, b: Span) {
    a.lo <= b.lo
  }

  function SortByStart(s: seq<Span>): (r: seq<Span>) {
    Sort(s, StartsFirst)
  }

  lemma SortedSpans(s: seq<Span>)
    ensures SortedByStart(SortByStart(s)) && |SortByStart(s)| == |s|
    ensures forall sp :: sp in SortByStart(s) <==> sp in s
  {
    SortSorts(s, StartsFirst);
    forall sp ensures sp in SortByStart(s) <==> sp in s {
      SortMembers(s, StartsFirst, sp);
    }
  }

  // ---- coalescing ----

  /** One step of the merge: extend the last span, or start a new one. */
  function Push(m: seq<Span>, sp: Span): seq<Span> {
    if m != [] && sp.lo <= m[|m| - 1].hi then
      var last := m[|m| - 1];
      m[|m| - 1 := if sp.hi > last.hi then Span(last.lo, sp.hi) else last]
    else m + [sp]
  }

  function Coalesce(s: seq<Span>): (m: seq<Span>)
    ensures |m| <= |s|
    ensures s != [] ==> m != []
  {
    if s == [] then [] else Push(Coalesce(s[..|s| - 1]), s[|s| - 1])
  }

  lemma PushKeepsNormal(m: seq<Span>, sp: Span)
    requires Normal(m) && sp.lo < sp.hi && (m != [] ==> m[|m| - 1].lo <= sp.lo)
    ensures Normal(Push(m, sp)) && Push(m, sp)[|Push(m, sp)| - 1].lo <= sp.lo
  {
    if m != [] {
      assert m[|m| - 1] in m;
      var r := Push(m, sp);
      forall x | x in r ensures x.lo < x.hi {
        assert x in m || x == r[|r| - 1];
      }
    }
  }

  lemma PushUnion(m: seq<Span>, sp: Span, i: int)
    requires m != [] ==> m[|m| - 1].lo <= sp.lo
    ensures Covers(Push(m, sp), i) <==> Covers(m, i) || Inside(sp, i)
  {
    var r := Push(m, sp);
    if m != [] && sp.lo <= m[|m| - 1].hi {
      var k := |m| - 1;
      assert r[k] in r && m[k] in m;
      if Covers(r, i) {
        var x :| x in r && Inside(x, i);
        var j :| 0 <= j < |r| && r[j] == x;
        assert j != k ==> m[j] in m;
      }
      if Covers(m, i) {
        var x :| x in m && Inside(x, i);
        var j :| 0 <= j < |m| && m[j] == x;
        assert r[j] in r;
      }
    } else {
      assert r == m + [sp];
      assert sp in r;
      assert forall x :: x in m ==> x in r;
    }
  }

  lemma SnocUnion(s: seq<Span>, sp: Span, i: int)
    ensures Covers(s + [sp], i) <==> Covers(s, i) || Inside(sp, i)
  {
    assert sp in s + [sp];
    assert forall x :: x in s ==> x in s + [sp];
  }

  lemma PushKeepsUnion(m: seq<Span>, s: seq<Span>, sp: Span)
    requires SameUnion(m, s) && (m != [] ==> m[|m| - 1].lo <= sp.lo)
    ensures SameUnion(Push(m, sp), s + [sp])
  {
    forall i ensures Covers(Push(m, sp), i) <==> Covers(s + [sp], i) {
      PushUnion(m, sp, i);
      SnocUnion(s, sp, i);
    }
  }

  lemma CoalesceSnoc(s: seq<Span>, sp: Span)
    ensures Coalesce(s + [sp]) == Push(Coalesce(s), sp)
  {
    assert (s + [sp])[..|s|] == s;
  }

  ghost predicate StartsBy(m: seq<Span>, t: nat) {
    m != [] ==> m[|m| - 1].lo <= t
  }

  lemma InitIsSorted(init: seq<Span>, sp: Span)
    requires SortedByStart(init + [sp]) && Nonempty(init + [sp])
    ensures SortedByStart(init) && Nonempty(init) && StartsBy(init, sp.lo) && sp.lo < sp.hi
  {
    var s := init + [sp];
    assert forall k :: 0 <= k < |init| ==> s[k] == init[k];
    assert s[|init|] == sp;
    assert forall x :: x in init ==> x in s;
  }

  /** Coalescing sorted spans gives a normal form with the same union. */
  lemma {:induction false} CoalesceIsNormal(s: seq<Span>, t: nat)
    requires SortedByStart(s) && Nonempty(s) && StartsBy(s, t)
    ensures Normal(Coalesce(s)) && SameUnion(Coalesce(s), s) && StartsBy(Coalesce(s), t)
    decreases |s|
  {
    if s != [] {
      var init, sp := s[..|s| - 1], s[|s| - 1];
      assert s == init + [sp];
      InitIsSorted(init, sp);
      CoalesceIsNormal(init, sp.lo);
      CoalesceSnoc(init, sp);
      PushKeepsNormal(Coalesce(init), sp);
      PushKeepsUnion(Coalesce(init), init, sp);
    }
  }

  function Merged(s: seq<Span>): seq<Span> {
    Coalesce(SortByStart(s))
  }

  /** The merge: sorted, strictly separated, and the same union. */
  lemma MergedIsNormal(s: seq<Span>)
    requires Nonempty(s)
    ensures Normal(Merged(s)) && SameUnion(Merged(s), s)
  {
    SortedSpans(s);
    CoalesceIsNormal(SortByStart(s), if s == [] then 0 else SortByStart(s)[|s| - 1].lo);
  }

  // ---- normal forms are unique ----

  lemma FirstIsLeast(a: seq<Span>, i: int)
    requires Normal(a) && a != []
    ensures Covers(a, a[0].lo) && !Covers(a, a[0].hi)
    ensures Covers(a, i) ==> a[0].lo <= i
    ensures a[0].lo <= i < a[0].hi ==> Covers(a, i)
  {
    assert a[0] in a;
    assert Inside(a[0], a[0].lo);
    forall sp | sp in a ensures sp == a[0] || a[0].hi < sp.lo {
      var j :| 0 <= j < |a| && a[j] == sp;
    }
  }

  lemma RestCovers(a: seq<Span>, i: int)
    requires Normal(a) && a != []
    ensures Covers(a[1..], i) <==> Covers(a, i) && a[0].hi <= i
  {
    assert a == [a[0]] + a[1..];
    forall sp | sp in a[1..] ensures a[0].hi < sp.lo {
      var j :| 0 <= j < |a[1..]| && a[1..][j] == sp;
      assert a[j + 1] == sp;
    }
  }

  /** Two normal forms with the same union are the same list, so neither sort order nor ties matter. */
  lemma {:induction false} NormalIsUnique(a: seq<Span>, b: seq<Span>)
    requires Normal(a) && Normal(b) && SameUnion(a, b)
    ensures a == b
  {
    if a == [] {
      if b != [] {
        FirstIsLeast(b, 0);
      }
    } else if b == [] {
      FirstIsLeast(a, 0);
    } else {
      FirstAgrees(a, b);
      RestAgrees(a, b);
      NormalIsUnique(a[1..], b[1..]);
      assert a == [a[0]] + a[1..] && b == [b[0]] + b[1..];
    }
  }

  lemma FirstAgrees(a: seq<Span>, b: seq<Span>)
    requires Normal(a) && Normal(b) && SameUnion(a, b) && a != [] && b != []
    ensures a[0] == b[0]
  {
    FirstIsLeast(a, b[0].lo);
    FirstIsLeast(b, a[0].lo);
    FirstIsLeast(a, b[0].hi);
    FirstIsLeast(b, a[0].hi);
    assert a[0] in a && b[0] in b;
  }

  lemma RestAgrees(a: seq<Span>, b: seq<Span>)
    requires Normal(a) && Normal(b) && SameUnion(a, b) && a != [] && b != [] && a[0] == b[0]
    ensures Normal(a[1..]) && Normal(b[1..]) && SameUnion(a[1..], b[1..])
  {
    forall i ensures Covers(a[1..], i) <==> Covers(b[1..], i) {
      RestCovers(a, i);
      RestCovers(b, i);
    }
  }

  /** A list already in normal form is left as it is. */
  lemma MergedKeepsNormal(s: seq<Span>)
    requires Normal(s)
    ensures Merged(s) == s
  {
    MergedIsNormal(s);
    NormalIsUnique(Merged(s), s);
  }

  ghost predicate Holds(spans: array<Span>, merged: seq<Span>)
    reads spans
  {
    |merged| <= spans.Length && forall k :: 0 <= k < |merged| ==> spans[k] == merged[k]
  }

  /** One round of the compaction: the span read at `i` joins the merged prefix of length `m`. */
  method CompactOne(spans: array<Span>, i: nat, m: nat, ghost merged: seq<Span>) returns (n: nat)
    requires 1 <= m <= i < spans.Length && |merged| == m && Holds(spans, merged)
    modifies spans
    ensures n == |Push(merged, old(spans[i]))| && Holds(spans, Push(merged, old(spans[i])))
    ensures m <= n <= i + 1 && forall k :: i < k < spans.Length ==> spans[k] == old(spans[k])
  {
    var sp := spans[i];
    if sp.lo <= spans[m - 1].hi {
      if sp.hi > spans[m - 1].hi {
        spans[m - 1] := Span(spans[m - 1].lo, sp.hi);
      }
      return m;
    }
    spans[m] := sp;
    return m + 1;
  }

  /** The compaction: the merged prefix and the spans still to read share one buffer. */
  method Compact(spans: array<Span>) returns (m: nat)
    requires spans.Length > 0
    modifies spans
    ensures m <= spans.Length && spans[..m] == Coalesce(old(spans[..]))
  {
    ghost var was := spans[..];
    ghost var merged := [was[0]];
    m := 1;
    CoalesceSnoc([], was[0]);
    assert was[..1] == [] + [was[0]];
    var i := 1;
    while i < spans.Length
      invariant 1 <= m <= i <= spans.Length
      invariant merged == Coalesce(was[..i]) && |merged| == m && Holds(spans, merged)
      invariant forall k :: i <= k < spans.Length ==> spans[k] == was[k]
    {
      CoalesceSnoc(was[..i], was[i]);
      assert was[..i + 1] == was[..i] + [was[i]];
      m := CompactOne(spans, i, m, merged);
      merged := Push(merged, was[i]);
      i := i + 1;
    }
    assert was[..i] == was;
    assert spans[..m] == merged;
  }

  lemma ShortIsMerged(s: seq<Span>)
    requires |s| < 2
    ensures Merged(s) == s
  {
    if |s| == 1 {
      assert s[1..] == [] && s[..0] == [] && s == [s[0]];
      assert Sort(s[1..], StartsFirst) == [] && Insert(s[0], [], StartsFirst) == [s[0]];
    }
  }

  /** The merge as the code runs it, in the buffer it is given; `m` is the merged length. */
  method MergeSpans(spans: array<Span>) returns (m: nat)
    modifies spans
    ensures m <= spans.Length && spans[..m] == Merged(old(spans[..]))
  {
    if spans.Length < 2 {
      ShortIsMerged(spans[..]);
      return spans.Length;
    }
    var sorted := SortByStart(spans[..]);
    SortedSpans(spans[..]);
    forall i | 0 <= i < spans.Length {
      spans[i] := sorted[i];
    }
    assert spans[..] == sorted;
    m := Compact(spans);
  }
}
