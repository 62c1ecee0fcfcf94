/**
  Keyword masking composes: cuts fall only on the boundaries of maximal word runs, so
  what is left between two masks is scanned by a later rule exactly as it would have
  been in place.
 */
module MaskComposition {
  import opened Segments
  import opened Spans
  import opened Filter
  import opened Masking

  // ---- scanning part of a text ----

  lemma SliceOfSuffix(text: string, c: nat, a: nat, b: nat)
    requires a <= b && c + b <= |text|
    ensures text[c..][a..b] == text[c + a..c + b]
  {
  }

  lemma SliceOfPrefix(text: string, s: nat, a: nat, b: nat)
    requires a <= b <= s <= |text|
    ensures text[..s][a..b] == text[a..b]
  {
  }

  /** The end of the token at `i`: a whole word run, or one other rune. */
  function Token(lang: Lang, text: string, i: nat): (j: nat)
    requires i < |text|
    ensures i < j <= |text|
  {
    if WordAt(lang, text, i) then RunEnd(lang, text, i) else Next(lang, text, i)
  }

  /** A whole number of tokens leads from `c` to `s`. */
  ghost predicate Reach(lang: Lang, text: string, c: nat, s: nat)
    requires c <= |text|
    decreases |text| - c
  {
    c == s || (c < |text| && Reach(lang, text, Token(lang, text, c), s))
  }

  lemma {:induction false} ReachAhead(lang: Lang, text: string, c: nat, s: nat)
    requires c <= |text| && Reach(lang, text, c, s)
    ensures c <= s <= |text|
    decreases |text| - c
  {
    if c != s {
      ReachAhead(lang, text, Token(lang, text, c), s);
    }
  }

  /** Cutting the text behind a rune does not change how it decodes. */
  lemma CutDecode(lang: Lang, text: string, i: nat, s: nat)
    requires i < s <= |text| && Next(lang, text, i) <= s
    ensures WordAt(lang, text[..s], i) == WordAt(lang, text, i) && Next(lang, text[..s], i) == Next(lang, text, i)
  {
    assert lang.decode(text[i..]).size <= s - i;
    assert text[..s][i..] == Prefix(text[i..], s - i);
  }

  lemma {:induction false} CutRun(lang: Lang, text: string, i: nat, s: nat)
    requires i <= s <= |text| && RunEnd(lang, text, i) <= s
    requires var e := RunEnd(lang, text, i); e == s || Next(lang, text, e) <= s
    ensures RunEnd(lang, text[..s], i) == RunEnd(lang, text, i)
    decreases |text| - i
  {
    if i < s {
      CutDecode(lang, text, i, s);
      if WordAt(lang, text, i) {
        CutRun(lang, text, Next(lang, text, i), s);
      }
    }
  }

  lemma CutHit(lang: Lang, kw: set<string>, text: string, c: nat, e: nat, s: nat)
    requires c < e <= s <= |text| && WordAt(lang, text, c) && e == RunEnd(lang, text, c) && Reach(lang, text, e, s)
    ensures WordAt(lang, text[..s], c) && RunEnd(lang, text[..s], c) == e
    ensures HitSpan(lang, kw, text[..s], c, e) == HitSpan(lang, kw, text, c, e)
  {
    if e != s {
      ReachAhead(lang, text, Token(lang, text, e), s);
    }
    CutRun(lang, text, c, s);
    SliceOfPrefix(text, s, c, e);
  }

  lemma AssociateSpans(x: seq<Span>, y: seq<Span>, z: seq<Span>)
    ensures x + (y + z) == (x + y) + z
  {
  }

  /** A scan splits at any token boundary. */
  lemma {:induction false} CutScan(lang: Lang, kw: set<string>, text: string, c: nat, s: nat)
    requires c <= |text| && Reach(lang, text, c, s)
    ensures c <= s <= |text|
    ensures Scan(lang, kw, text, c) == Scan(lang, kw, text[..s], c) + Scan(lang, kw, text, s)
    decreases |text| - c
  {
    ReachAhead(lang, text, c, s);
    if c < s {
      var e := Token(lang, text, c);
      ReachAhead(lang, text, e, s);
      CutScan(lang, kw, text, e, s);
      if WordAt(lang, text, c) {
        CutHit(lang, kw, text, c, e, s);
        AssociateSpans(HitSpan(lang, kw, text, c, e), Scan(lang, kw, text[..s], e), Scan(lang, kw, text, s));
      } else {
        CutDecode(lang, text, c, s);
      }
    }
  }

  function Shift(spans: seq<Span>, c: nat): seq<Span> {
    seq(|spans|, k requires 0 <= k < |spans| => Span(spans[k].lo + c, spans[k].hi + c))
  }

  lemma ShiftConcat(a: seq<Span>, b: seq<Span>, c: nat)
    ensures Shift(a + b, c) == Shift(a, c) + Shift(b, c)
  {
  }

  lemma ShiftDecode(lang: Lang, text: string, c: nat, i: nat)
    requires c + i < |text|
    ensures WordAt(lang, text[c..], i) == WordAt(lang, text, c + i)
    ensures c + Next(lang, text[c..], i) == Next(lang, text, c + i)
  {
    assert text[c..][i..] == text[c + i..];
  }

  lemma {:induction false} ShiftRun(lang: Lang, text: string, c: nat, i: nat)
    requires c + i <= |text|
    ensures c + RunEnd(lang, text[c..], i) == RunEnd(lang, text, c + i)
    decreases |text| - i
  {
    if c + i < |text| {
      ShiftDecode(lang, text, c, i);
      if WordAt(lang, text, c + i) {
        ShiftRun(lang, text, c, Next(lang, text[c..], i));
      }
    }
  }

  lemma ShiftHit(lang: Lang, kw: set<string>, text: string, c: nat, i: nat, e: nat)
    requires i <= e && c + e <= |text|
    ensures HitSpan(lang, kw, text, c + i, c + e) == Shift(HitSpan(lang, kw, text[c..], i, e), c)
  {
    SliceOfSuffix(text, c, i, e);
  }

  lemma ShiftWord(lang: Lang, kw: set<string>, text: string, c: nat, i: nat, e: nat)
    requires c + i < |text| && WordAt(lang, text[c..], i) && WordAt(lang, text, c + i) && e == RunEnd(lang, text[c..], i)
    requires Scan(lang, kw, text, c + e) == Shift(Scan(lang, kw, text[c..], e), c)
    ensures Scan(lang, kw, text, c + i) == Shift(Scan(lang, kw, text[c..], i), c)
  {
    ShiftRun(lang, text, c, i);
    ShiftHit(lang, kw, text, c, i, e);
    ShiftConcat(HitSpan(lang, kw, text[c..], i, e), Scan(lang, kw, text[c..], e), c);
  }

  /** Scanning a suffix finds the same runs, counted from its start. */
  lemma {:induction false} ShiftScan(lang: Lang, kw: set<string>, text: string, c: nat, i: nat)
    requires c + i <= |text|
    ensures Scan(lang, kw, text, c + i) == Shift(Scan(lang, kw, text[c..], i), c)
    decreases |text| - i
  {
    if c + i < |text| {
      ShiftDecode(lang, text, c, i);
      if WordAt(lang, text, c + i) {
        var e := RunEnd(lang, text[c..], i);
        ShiftScan(lang, kw, text, c, e);
        ShiftWord(lang, kw, text, c, i, e);
      } else {
        ShiftScan(lang, kw, text, c, Next(lang, text[c..], i));
      }
    }
  }

  /** Where one set of keywords finds nothing, the union finds what the other set finds. */
  lemma {:induction false} ScanUnion(lang: Lang, k1: set<string>, k2: set<string>, text: string, i: nat)
    requires i <= |text| && Scan(lang, k1, text, i) == []
    ensures Scan(lang, k1 + k2, text, i) == Scan(lang, k2, text, i)
    decreases |text| - i
  {
    if i < |text| {
      ScanUnion(lang, k1, k2, text, Token(lang, text, i));
    }
  }

  ghost predicate IsFirst(lang: Lang, kw: set<string>, text: string, c: nat, sp: Span)
    requires c <= |text|
  {
    && Reach(lang, text, c, sp.lo) && c <= sp.lo < sp.hi <= |text|
    && WordAt(lang, text, sp.lo) && sp.hi == RunEnd(lang, text, sp.lo) && Hit(lang, kw, text[sp.lo..sp.hi])
    && Scan(lang, kw, text, c) == [sp] + Scan(lang, kw, text, sp.hi)
  }

  lemma {:induction false} FirstIs(lang: Lang, kw: set<string>, text: string, c: nat)
    requires c <= |text| && Scan(lang, kw, text, c) != []
    ensures IsFirst(lang, kw, text, c, Scan(lang, kw, text, c)[0])
    decreases |text| - c
  {
    var e := Token(lang, text, c);
    if !(WordAt(lang, text, c) && Hit(lang, kw, text[c..e])) {
      FirstIs(lang, kw, text, e);
    }
  }

  /** Nothing is found before the first hit, and from there on the scan starts with it. */
  lemma BeforeFirst(lang: Lang, kw: set<string>, text: string, c: nat, sp: Span)
    requires c <= |text| && IsFirst(lang, kw, text, c, sp)
    ensures Scan(lang, kw, text[..sp.lo], c) == []
  {
    CutScan(lang, kw, text, c, sp.lo);
    var whole, before, after := Scan(lang, kw, text, c), Scan(lang, kw, text[..sp.lo], c), Scan(lang, kw, text, sp.lo);
    assert after == [sp] + Scan(lang, kw, text, sp.hi);
    assert |whole| == |before| + |after|;
  }

  /** Around the first hit of one set, the scan for the union is the other set's, the hit, and the rest. */
  lemma UnionAround(lang: Lang, k1: set<string>, k2: set<string>, text: string, c: nat, sp: Span)
    requires c <= |text| && IsFirst(lang, k1, text, c, sp)
    ensures Scan(lang, k1 + k2, text, c) == Scan(lang, k2, text[..sp.lo], c) + [sp] + Scan(lang, k1 + k2, text, sp.hi)
  {
    BeforeFirst(lang, k1, text, c, sp);
    ScanUnion(lang, k1, k2, text[..sp.lo], c);
    CutScan(lang, k1 + k2, text, c, sp.lo);
    assert Scan(lang, k1 + k2, text, sp.lo) == [sp] + Scan(lang, k1 + k2, text, sp.hi);
  }

  // ---- splitting part of a text ----

  lemma {:induction false} InOrderShift(spans: seq<Span>, c: nat, j: nat, n: nat)
    requires InOrder(spans, j, n)
    ensures InOrder(Shift(spans, c), c + j, c + n)
    decreases |spans|
  {
    if spans != [] {
      InOrderShift(spans[1..], c, spans[0].hi, n);
      assert Shift(spans, c)[1..] == Shift(spans[1..], c);
    }
  }

  lemma PlainShift(text: string, c: nat, a: nat, b: nat)
    requires a <= b && c + b <= |text|
    ensures Plain(text, c + a, c + b) == Plain(text[c..], a, b)
  {
    SliceOfSuffix(text, c, a, b);
  }

  lemma PlainPrefix(text: string, s: nat, a: nat, b: nat)
    requires a <= b <= s <= |text|
    ensures Plain(text, a, b) == Plain(text[..s], a, b)
  {
    SliceOfPrefix(text, s, a, b);
  }

  lemma {:induction false} SplitShift(text: string, c: nat, spans: seq<Span>, j: nat)
    requires c <= |text| && InOrder(spans, j, |text| - c)
    ensures InOrder(Shift(spans, c), c + j, |text|)
    ensures Split(text, Shift(spans, c), c + j) == Split(text[c..], spans, j)
    decreases |spans|
  {
    InOrderShift(spans, c, j, |text| - c);
    InOrderFits(spans, j, |text| - c);
    if spans == [] {
      PlainShift(text, c, j, |text| - c);
    } else {
      var sp, rest := spans[0], spans[1..];
      InOrderFits(rest, sp.hi, |text| - c);
      assert Shift(spans, c)[1..] == Shift(rest, c);
      SplitShift(text, c, rest, sp.hi);
      PlainShift(text, c, j, sp.lo);
      SliceOfSuffix(text, c, sp.lo, sp.hi);
    }
  }

  lemma {:induction false} InOrderJoin(a: seq<Span>, sp: Span, b: seq<Span>, c: nat, n: nat)
    requires InOrder(a, c, sp.lo) && sp.lo <= sp.hi && InOrder(b, sp.hi, n)
    ensures InOrder(a + [sp] + b, c, n)
    decreases |a|
  {
    InOrderFits(b, sp.hi, n);
    var all := a + [sp] + b;
    if a == [] {
      assert all[0] == sp && all[1..] == b;
    } else {
      InOrderFits(a[1..], a[0].hi, sp.lo);
      InOrderJoin(a[1..], sp, b, a[0].hi, n);
      assert all[1..] == a[1..] + [sp] + b;
    }
  }

  lemma Regroup(p: seq<Segment>, x: seq<Segment>, m: seq<Segment>, y: seq<Segment>)
    ensures p + ((x + m) + y) == ((p + x) + m) + y
  {
  }

  lemma {:induction false} SplitJoin(text: string, a: seq<Span>, sp: Span, b: seq<Span>, c: nat)
    requires sp.lo <= sp.hi <= |text| && InOrder(a, c, sp.lo) && InOrder(b, sp.hi, |text|)
    ensures InOrder(a + [sp] + b, c, |text|)
    ensures Split(text, a + [sp] + b, c)
            == Split(text[..sp.lo], a, c) + [MaskedSegment(text[sp.lo..sp.hi])] + Split(text, b, sp.hi)
    decreases |a|
  {
    InOrderJoin(a, sp, b, c, |text|);
    InOrderFits(a, c, sp.lo);
    var all := a + [sp] + b;
    if a == [] {
      assert all[0] == sp && all[1..] == b;
      PlainPrefix(text, sp.lo, c, sp.lo);
    } else {
      InOrderFits(a[1..], a[0].hi, sp.lo);
      assert all[0] == a[0] && all[1..] == a[1..] + [sp] + b;
      SplitJoin(text, a[1..], sp, b, a[0].hi);
      SliceOfPrefix(text, sp.lo, a[0].lo, a[0].hi);
      PlainPrefix(text, sp.lo, c, a[0].lo);
      Regroup(Plain(text, c, a[0].lo) + [MaskedSegment(text[a[0].lo..a[0].hi])], Split(text[..sp.lo], a[1..], a[0].hi),
              [MaskedSegment(text[sp.lo..sp.hi])], Split(text, b, sp.hi));
    }
  }

  // ---- two passes over one text ----

  lemma ScanInOrder(lang: Lang, kw: set<string>, text: string, c: nat)
    requires c <= |text|
    ensures Normal(Scan(lang, kw, text, c)) && InOrder(Scan(lang, kw, text, c), c, |text|)
  {
    ScanIsNormal(lang, kw, text, c);
    NormalInOrder(Scan(lang, kw, text, c), c, |text|);
  }

  /** With keywords alone the merge has nothing to do. */
  lemma KeywordsOnly(lang: Lang, kw: set<string>, text: string)
    ensures Collected(lang, kw, [], text) == Scan(lang, kw, text, 0)
    ensures InOrder(Scan(lang, kw, text, 0), 0, |text|)
  {
    ScanInOrder(lang, kw, text, 0);
    assert Candidates(lang, kw, [], text) == Scan(lang, kw, text, 0);
    MergedKeepsNormal(Scan(lang, kw, text, 0));
  }

  lemma MaskPiece(lang: Lang, kw: set<string>, p: string)
    requires p != ""
    ensures InOrder(Scan(lang, kw, p, 0), 0, |p|)
    ensures MaskOne(lang, kw, [], TextSegment(p)) == Split(p, Scan(lang, kw, p, 0), 0)
  {
    KeywordsOnly(lang, kw, p);
    assert p[0..|p|] == p;
  }

  lemma SplitSuffix(lang: Lang, kw: set<string>, text: string, c: nat)
    requires c <= |text|
    ensures InOrder(Scan(lang, kw, text, c), c, |text|) && InOrder(Scan(lang, kw, text[c..], 0), 0, |text| - c)
    ensures Split(text, Scan(lang, kw, text, c), c) == Split(text[c..], Scan(lang, kw, text[c..], 0), 0)
  {
    var tail := Scan(lang, kw, text[c..], 0);
    ScanInOrder(lang, kw, text[c..], 0);
    ShiftScan(lang, kw, text, c, 0);
    SplitShift(text, c, tail, 0);
    assert Scan(lang, kw, text, c) == Shift(tail, c);
  }

  lemma FlatMapOne(s: Segment, f: Segment -> seq<Segment>)
    ensures FlatMap([s], f) == f(s)
  {
    FlatMapSnoc([], s, f);
    assert [] + [s] == [s];
  }

  /** Masking the text left from `c` on is masking in place from `c` on. */
  lemma PlainMasked(lang: Lang, kw: set<string>, text: string, c: nat)
    requires c <= |text|
    ensures InOrder(Scan(lang, kw, text, c), c, |text|)
    ensures FlatMap(Plain(text, c, |text|), Masker(lang, kw, [])) == Split(text, Scan(lang, kw, text, c), c)
  {
    SplitSuffix(lang, kw, text, c);
    if c < |text| {
      var p := text[c..|text|];
      assert p == text[c..];
      MaskPiece(lang, kw, p);
      FlatMapOne(TextSegment(p), Masker(lang, kw, []));
    }
  }

  lemma MaskedStays(lang: Lang, kw: set<string>, x: string)
    ensures FlatMap([MaskedSegment(x)], Masker(lang, kw, [])) == [MaskedSegment(x)]
  {
    FlatMapSame([MaskedSegment(x)], Masker(lang, kw, []));
  }

  /** Masking with k2 what masking with k1 left is masking with both, from any token boundary on. */
  lemma {:induction false} Compose(lang: Lang, k1: set<string>, k2: set<string>, text: string, c: nat)
    requires c <= |text|
    ensures InOrder(Scan(lang, k1, text, c), c, |text|) && InOrder(Scan(lang, k1 + k2, text, c), c, |text|)
    ensures FlatMap(Split(text, Scan(lang, k1, text, c), c), Masker(lang, k2, []))
            == Split(text, Scan(lang, k1 + k2, text, c), c)
    decreases |text| - c
  {
    ScanInOrder(lang, k1, text, c);
    ScanInOrder(lang, k1 + k2, text, c);
    var found := Scan(lang, k1, text, c);
    if found == [] {
      ScanUnion(lang, k1, k2, text, c);
      PlainMasked(lang, k2, text, c);
    } else {
      FirstIs(lang, k1, text, c);
      ComposeAround(lang, k1, k2, text, c, found[0]);
    }
  }

  lemma {:induction false} ComposeAround(lang: Lang, k1: set<string>, k2: set<string>, text: string, c: nat, sp: Span)
    requires c <= |text| && IsFirst(lang, k1, text, c, sp)
    requires InOrder(Scan(lang, k1, text, c), c, |text|) && InOrder(Scan(lang, k1 + k2, text, c), c, |text|)
    ensures FlatMap(Split(text, Scan(lang, k1, text, c), c), Masker(lang, k2, []))
            == Split(text, Scan(lang, k1 + k2, text, c), c)
    decreases |text| - c, 0
  {
    var m2 := Masker(lang, k2, []);
    var s, e := sp.lo, sp.hi;
    var hit := [MaskedSegment(text[s..e])];
    Compose(lang, k1, k2, text, e);
    var rest1, rest12 := Scan(lang, k1, text, e), Scan(lang, k1 + k2, text, e);
    assert Scan(lang, k1, text, c)[1..] == rest1;
    PlainPrefix(text, s, c, s);
    PlainMasked(lang, k2, text[..s], c);
    MaskedStays(lang, k2, text[s..e]);
    var p, q := Plain(text, c, s), Split(text, rest1, e);
    FlatMapConcat(p + hit, q, m2);
    FlatMapConcat(p, hit, m2);
    UnionAround(lang, k1, k2, text, c, sp);
    SplitJoin(text, Scan(lang, k2, text[..s], c), sp, rest12, c);
  }

  // ---- two passes over a message ----

  lemma ComposeSegment(lang: Lang, k1: set<string>, k2: set<string>, s: Segment)
    ensures FlatMap(MaskOne(lang, k1, [], s), Masker(lang, k2, [])) == MaskOne(lang, k1 + k2, [], s)
  {
    var m2 := Masker(lang, k2, []);
    FlatMapOne(s, m2);
    if s.kind == Text {
      KeywordsOnly(lang, k1, s.text);
      KeywordsOnly(lang, k2, s.text);
      KeywordsOnly(lang, k1 + k2, s.text);
      if Scan(lang, k1, s.text, 0) == [] {
        ScanUnion(lang, k1, k2, s.text, 0);
      } else {
        Compose(lang, k1, k2, s.text, 0);
        FirstIs(lang, k1, s.text, 0);
        UnionAround(lang, k1, k2, s.text, 0, Scan(lang, k1, s.text, 0)[0]);
      }
    }
  }

  /** Two keyword passes are one pass with both sets. */
  lemma MaskingComposes(lang: Lang, k1: set<string>, k2: set<string>, segs: seq<Segment>)
    ensures FlatMap(FlatMap(segs, Masker(lang, k1, [])), Masker(lang, k2, []))
            == FlatMap(segs, Masker(lang, k1 + k2, []))
  {
    forall s | s in segs
      ensures FlatMap(Masker(lang, k1, [])(s), Masker(lang, k2, [])) == Masker(lang, k1 + k2, [])(s)
    {
      ComposeSegment(lang, k1, k2, s);
    }
    FlatMapFuses(segs, Masker(lang, k1, []), Masker(lang, k2, []), Masker(lang, k1 + k2, []));
  }

  /** So the order of two keyword passes does not matter, and a second identical pass does nothing. */
  lemma MaskingCommutes(lang: Lang, k1: set<string>, k2: set<string>, segs: seq<Segment>)
    ensures FlatMap(FlatMap(segs, Masker(lang, k1, [])), Masker(lang, k2, []))
            == FlatMap(FlatMap(segs, Masker(lang, k2, [])), Masker(lang, k1, []))
    ensures FlatMap(FlatMap(segs, Masker(lang, k1, [])), Masker(lang, k1, [])) == FlatMap(segs, Masker(lang, k1, []))
  {
    MaskingComposes(lang, k1, k2, segs);
    MaskingComposes(lang, k2, k1, segs);
    MaskingComposes(lang, k1, k1, segs);
    assert k1 + k2 == k2 + k1 && k1 + k1 == k1;
  }
}
