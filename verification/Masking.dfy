/**
  Rewriting a message with mask rules (splitMasked, maskSegments and the mask branch
  of Annotate in internal/filter/filter.go).
 */
module Masking {
  import opened Segments
  import opened Spans
  import opened Filter

  /** Three U+2217 asterisk operators, in UTF-8. */
  const MASK: string := "\U{e2}\U{88}\U{97}\U{e2}\U{88}\U{97}\U{e2}\U{88}\U{97}"

  function MaskedSegment(original: string): Segment {
    Segment(Masked, MASK, NoEmote, 0, original)
  }

  /** Spans in order, from `cursor` on, inside a text of length n. */
  predicate InOrder(spans: seq<Span>, cursor: nat, n: nat) {
    if spans == [] then cursor <= n
    else cursor <= spans[0].lo <= spans[0].hi <= n && InOrder(spans[1..], spans[0].hi, n)
  }

  function Plain(text: string, a: nat, b: nat): seq<Segment>
    requires a <= b <= |text|
  {
    if a < b then [TextSegment(text[a..b])] else []
  }

  function Split(text: string, spans: seq<Span>, cursor: nat): seq<Segment>
    requires InOrder(spans, cursor, |text|)
  {
    if spans == [] then Plain(text, cursor, |text|)
    else
      Plain(text, cursor, spans[0].lo)
      + [MaskedSegment(text[spans[0].lo..spans[0].hi])]
      + Split(text, spans[1..], spans[0].hi)
  }

  // ---- conservation and exact coverage ----

  /** A byte of the original text, and whether it lies behind a mask. */
  datatype Shaded = Shaded(byte: char, masked: bool)

  function ShadeText(text: string, masked: bool): seq<Shaded> {
    seq(|text|, i requires 0 <= i < |text| => Shaded(text[i], masked))
  }

  function ShadeOf(s: Segment): seq<Shaded> {
    ShadeText(Original(s), s.kind == Masked)
  }

  function Shade(segs: seq<Segment>): seq<Shaded> {
    if segs == [] then [] else ShadeOf(segs[0]) + Shade(segs[1..])
  }

  lemma {:induction false} ShadeConcat(a: seq<Segment>, b: seq<Segment>)
    ensures Shade(a + b) == Shade(a) + Shade(b)
  {
    if a == [] {
      assert a + b == b;
    } else {
      ShadeConcat(a[1..], b);
      ShadeStep(a[0], a[1..], b);
      HeadFirst(a, b);
    }
  }

  lemma ShadeStep(s: Segment, rest: seq<Segment>, b: seq<Segment>)
    requires Shade(rest + b) == Shade(rest) + Shade(b)
    ensures Shade([s] + (rest + b)) == Shade([s] + rest) + Shade(b)
  {
    ShadeCons(s, rest + b);
    ShadeCons(s, rest);
    AssociateShades(ShadeOf(s), Shade(rest), Shade(b));
  }

  lemma ShadeCons(s: Segment, rest: seq<Segment>)
    ensures Shade([s] + rest) == ShadeOf(s) + Shade(rest)
  {
    assert ([s] + rest)[1..] == rest;
  }

  lemma AssociateShades(x: seq<Shaded>, y: seq<Shaded>, z: seq<Shaded>)
    ensures (x + y) + z == x + (y + z)
  {
  }

  ghost function ShadeBy(text: string, spans: seq<Span>, a: nat, b: nat): seq<Shaded>
    requires a <= b <= |text|
  {
    seq(b - a, i requires 0 <= i < (b - a) => Shaded(text[a + i], Covers(spans, a + i)))
  }

  lemma ShadeSingle(s: Segment)
    ensures Shade([s]) == ShadeOf(s)
  {
    assert [s][1..] == [];
  }

  lemma PlainShade(text: string, a: nat, b: nat, spans: seq<Span>)
    requires a <= b <= |text| && forall i :: a <= i < b ==> !Covers(spans, i)
    ensures Shade(Plain(text, a, b)) == ShadeBy(text, spans, a, b)
  {
    if a < b {
      ShadeSingle(TextSegment(text[a..b]));
    }
  }

  lemma MaskedShade(text: string, sp: Span, spans: seq<Span>)
    requires sp.lo <= sp.hi <= |text| && sp in spans
    ensures Shade([MaskedSegment(text[sp.lo..sp.hi])]) == ShadeBy(text, spans, sp.lo, sp.hi)
  {
    ShadeSingle(MaskedSegment(text[sp.lo..sp.hi]));
    forall i | sp.lo <= i < sp.hi ensures Covers(spans, i) {
      assert Inside(sp, i);
    }
  }

  lemma {:induction false} InOrderAhead(spans: seq<Span>, cursor: nat, n: nat, sp: Span)
    requires InOrder(spans, cursor, n) && sp in spans
    ensures cursor <= sp.lo <= sp.hi <= n
  {
    if sp != spans[0] {
      InOrderAhead(spans[1..], spans[0].hi, n, sp);
    } else if |spans| > 0 {
      assert cursor <= sp.lo;
    }
  }

  lemma {:induction false} InOrderFits(spans: seq<Span>, cursor: nat, n: nat)
    requires InOrder(spans, cursor, n)
    ensures cursor <= n
  {
    if spans != [] {
      InOrderFits(spans[1..], spans[0].hi, n);
    }
  }

  /** Which bytes the first span of an ordered list leaves to the rest. */
  lemma FirstCovers(spans: seq<Span>, cursor: nat, n: nat, i: int)
    requires InOrder(spans, cursor, n) && spans != []
    ensures i < spans[0].lo ==> !Covers(spans, i)
    ensures spans[0].hi <= i ==> (Covers(spans, i) <==> Covers(spans[1..], i))
  {
    assert spans == [spans[0]] + spans[1..];
    forall sp | sp in spans[1..] ensures spans[0].hi <= sp.lo {
      InOrderAhead(spans[1..], spans[0].hi, n, sp);
    }
  }

  /** Splitting keeps every byte, and masks exactly the covered ones. */
  lemma {:induction false} SplitShades(text: string, spans: seq<Span>, cursor: nat)
    requires InOrder(spans, cursor, |text|)
    ensures cursor <= |text| && Shade(Split(text, spans, cursor)) == ShadeBy(text, spans, cursor, |text|)
    decreases |spans|
  {
    InOrderFits(spans, cursor, |text|);
    if spans == [] {
      PlainShade(text, cursor, |text|, spans);
    } else {
      var sp, rest := spans[0], spans[1..];
      InOrderFits(rest, sp.hi, |text|);
      forall i: int ensures (i < sp.lo ==> !Covers(spans, i)) && (sp.hi <= i ==> (Covers(spans, i) <==> Covers(rest, i))) {
        FirstCovers(spans, cursor, |text|, i);
      }
      PlainShade(text, cursor, sp.lo, spans);
      MaskedShade(text, sp, spans);
      SplitShades(text, rest, sp.hi);
      var p, m, q := Plain(text, cursor, sp.lo), [MaskedSegment(text[sp.lo..sp.hi])], Split(text, rest, sp.hi);
      ShadeConcat(p, m);
      ShadeConcat(p + m, q);
      JoinShades(text, spans, rest, cursor, sp.lo, sp.hi);
    }
  }

  lemma JoinShades(text: string, spans: seq<Span>, rest: seq<Span>, a: nat, b: nat, c: nat)
    requires a <= b <= c <= |text|
    requires forall i :: c <= i < |text| ==> (Covers(spans, i) <==> Covers(rest, i))
    ensures ShadeBy(text, spans, a, b) + ShadeBy(text, spans, b, c) + ShadeBy(text, rest, c, |text|)
            == ShadeBy(text, spans, a, |text|)
  {
  }

  // ---- what is shown ----

  /** The text with every span replaced by three U+2217 asterisk operators, in UTF-8. */
  function Veil(text: string, spans: seq<Span>, cursor: nat): string
    requires InOrder(spans, cursor, |text|)
  {
    InOrderFits(spans, cursor, |text|);
    if spans == [] then text[cursor..]
    else
      InOrderFits(spans[1..], spans[0].hi, |text|);
      text[cursor..spans[0].lo]
      + "\U{e2}\U{88}\U{97}\U{e2}\U{88}\U{97}\U{e2}\U{88}\U{97}"
      + Veil(text, spans[1..], spans[0].hi)
  }

  /** A piece is plain text, or shows the asterisks and nothing else. */
  predicate IsPiece(s: Segment) {
    && s.emote == NoEmote && s.cheerBits == 0
    && (if s.kind == Masked then s.text == "\U{e2}\U{88}\U{97}\U{e2}\U{88}\U{97}\U{e2}\U{88}\U{97}"
        else s.kind == Text && s.text != "" && s.original == "")
  }

  lemma ShownOne(s: Segment)
    ensures PlainText([s]) == s.text
  {
    assert [s][1..] == [];
  }

  lemma {:induction false} SplitVeils(text: string, spans: seq<Span>, cursor: nat)
    requires InOrder(spans, cursor, |text|)
    ensures PlainText(Split(text, spans, cursor)) == Veil(text, spans, cursor)
    ensures forall s :: s in Split(text, spans, cursor) ==> IsPiece(s)
    decreases |spans|
  {
    InOrderFits(spans, cursor, |text|);
    if spans == [] {
      PlainShows(text, cursor, |text|);
    } else {
      var sp, rest := spans[0], spans[1..];
      InOrderFits(rest, sp.hi, |text|);
      SplitVeils(text, rest, sp.hi);
      PlainShows(text, cursor, sp.lo);
      var p, m := Plain(text, cursor, sp.lo), [MaskedSegment(text[sp.lo..sp.hi])];
      ShownOne(m[0]);
      PlainTextConcat(p + m, Split(text, rest, sp.hi));
      PlainTextConcat(p, m);
    }
  }

  lemma PlainShows(text: string, a: nat, b: nat)
    requires a <= b <= |text|
    ensures PlainText(Plain(text, a, b)) == text[a..b]
  {
    if a < b {
      ShownOne(TextSegment(text[a..b]));
    }
  }

  // ---- masking a segment ----

  function MaskOne(lang: Lang, kw: set<string>, res: seq<Regex>, s: Segment): seq<Segment> {
    if s.kind != Text || Collected(lang, kw, res, s.text) == [] then [s]
    else
      CollectedInOrder(lang, kw, res, s.text);
      Split(s.text, Collected(lang, kw, res, s.text), 0)
  }

  function Masker(lang: Lang, kw: set<string>, res: seq<Regex>): Segment -> seq<Segment> {
    s => MaskOne(lang, kw, res, s)
  }

  lemma {:induction false} WideFinds(ms: seq<Span>, sp: Span)
    ensures sp in Wide(ms) <==> sp in ms && sp.lo != sp.hi
  {
    if ms != [] {
      WideFinds(ms[..|ms| - 1], sp);
      assert ms == ms[..|ms| - 1] + [ms[|ms| - 1]];
    }
  }

  predicate FoundBy(re: Regex, text: string, sp: Span) {
    sp in re(text) && sp.lo != sp.hi
  }

  ghost predicate SomeFinds(res: seq<Regex>, text: string, sp: Span) {
    exists k :: 0 <= k < |res| && FoundBy(res[k], text, sp)
  }

  lemma SomeFindsLast(res: seq<Regex>, text: string, sp: Span, n: nat)
    requires |res| == n + 1
    ensures SomeFinds(res, text, sp) <==> SomeFinds(res[..n], text, sp) || FoundBy(res[n], text, sp)
  {
    var init := res[..n];
    assert forall k :: 0 <= k < n ==> init[k] == res[k];
    if SomeFinds(init, text, sp) {
      var k :| 0 <= k < n && FoundBy(init[k], text, sp);
      assert FoundBy(res[k], text, sp);
    }
  }

  lemma {:induction false} WideAllFinds(res: seq<Regex>, text: string, sp: Span)
    ensures sp in WideAll(res, text) <==> SomeFinds(res, text, sp)
  {
    if res != [] {
      var n := |res| - 1;
      WideAllFinds(res[..n], text, sp);
      WideFinds(res[n](text), sp);
      SomeFindsLast(res, text, sp, n);
    }
  }

  lemma CandidatesWithin(lang: Lang, kw: set<string>, res: seq<Regex>, text: string)
    ensures Nonempty(Candidates(lang, kw, res, text)) && Within(Candidates(lang, kw, res, text), 0, |text|)
  {
    ScanIsNormal(lang, kw, text, 0);
    forall sp | sp in WideAll(res, text) ensures sp.lo < sp.hi <= |text| {
      WideAllFinds(res, text, sp);
      var k :| 0 <= k < |res| && FoundBy(res[k], text, sp);
      assert InRange(res[k]);
    }
  }

  lemma {:induction false} NormalInOrder(spans: seq<Span>, cursor: nat, n: nat)
    requires Normal(spans) && cursor <= n && Within(spans, cursor, n)
    ensures InOrder(spans, cursor, n)
    decreases |spans|
  {
    if spans != [] {
      var rest := spans[1..];
      assert spans[0] in spans;
      forall sp | sp in rest ensures spans[0].hi <= sp.lo < sp.hi <= n {
        var j :| 0 <= j < |rest| && rest[j] == sp;
        assert spans[j + 1] == sp && sp in spans;
      }
      NormalInOrder(rest, spans[0].hi, n);
    }
  }

  lemma CollectedInOrder(lang: Lang, kw: set<string>, res: seq<Regex>, text: string)
    ensures Normal(Collected(lang, kw, res, text)) && InOrder(Collected(lang, kw, res, text), 0, |text|)
  {
    var spans := Candidates(lang, kw, res, text);
    var m := Collected(lang, kw, res, text);
    CandidatesWithin(lang, kw, res, text);
    MergedIsNormal(spans);
    forall sp | sp in m ensures sp.lo < sp.hi <= |text| {
      assert Inside(sp, sp.lo) && Inside(sp, sp.hi - 1);
      assert Covers(m, sp.hi - 1);
      var x :| x in spans && Inside(x, sp.hi - 1);
    }
    NormalInOrder(m, 0, |text|);
  }

  /** A byte to mask: inside a maximal word run that is a keyword, or inside a regular expression's match. */
  ghost predicate MustMask(lang: Lang, kw: set<string>, res: seq<Regex>, text: string, i: int) {
    || (exists sp: Span :: MaximalRun(lang, text, sp.lo, sp.hi) && Hit(lang, kw, text[sp.lo..sp.hi]) && Inside(sp, i))
    || (exists k, sp :: 0 <= k < |res| && sp in res[k](text) && Inside(sp, i))
  }

  lemma CandidatesCover(lang: Lang, kw: set<string>, res: seq<Regex>, text: string, i: int)
    ensures Covers(Candidates(lang, kw, res, text), i) <==> MustMask(lang, kw, res, text, i)
  {
    var spans := Candidates(lang, kw, res, text);
    if Covers(spans, i) {
      var sp :| sp in spans && Inside(sp, i);
      ScanIsKeywordRuns(lang, kw, text, sp);
      WideAllFinds(res, text, sp);
    }
    if sp: Span :| MaximalRun(lang, text, sp.lo, sp.hi) && Hit(lang, kw, text[sp.lo..sp.hi]) && Inside(sp, i) {
      ScanIsKeywordRuns(lang, kw, text, sp);
      assert sp in spans;
    }
    if k, sp :| 0 <= k < |res| && sp in res[k](text) && Inside(sp, i) {
      assert FoundBy(res[k], text, sp);
      WideAllFinds(res, text, sp);
      assert sp in spans;
    }
  }

  lemma CollectedCovers(lang: Lang, kw: set<string>, res: seq<Regex>, text: string, i: int)
    ensures Covers(Collected(lang, kw, res, text), i) <==> MustMask(lang, kw, res, text, i)
  {
    CandidatesWithin(lang, kw, res, text);
    MergedIsNormal(Candidates(lang, kw, res, text));
    CandidatesCover(lang, kw, res, text, i);
  }

  lemma MaskOneShades(lang: Lang, kw: set<string>, res: seq<Regex>, s: Segment)
    requires s.kind == Text
    ensures Shade(MaskOne(lang, kw, res, s)) == ShadeBy(s.text, Collected(lang, kw, res, s.text), 0, |s.text|)
  {
    var spans := Collected(lang, kw, res, s.text);
    CollectedInOrder(lang, kw, res, s.text);
    if spans == [] {
      ShadeSingle(s);
      assert forall i :: !Covers(spans, i);
    } else {
      SplitShades(s.text, spans, 0);
    }
  }

  /** The same bytes in the same order, masked exactly where they must be. */
  ghost predicate ExactlyMasked(r: seq<Shaded>, lang: Lang, kw: set<string>, res: seq<Regex>, text: string) {
    && |r| == |text|
    && forall i :: 0 <= i < |r| ==> r[i].byte == text[i] && (r[i].masked <==> MustMask(lang, kw, res, text, i))
  }

  /** Masking a text segment keeps its bytes in order and masks exactly the bytes that must be. */
  lemma MaskingIsExact(lang: Lang, kw: set<string>, res: seq<Regex>, s: Segment)
    requires s.kind == Text
    ensures ExactlyMasked(Shade(MaskOne(lang, kw, res, s)), lang, kw, res, s.text)
  {
    MaskOneShades(lang, kw, res, s);
    var r := ShadeBy(s.text, Collected(lang, kw, res, s.text), 0, |s.text|);
    forall i | 0 <= i < |r|
      ensures r[i].byte == s.text[i] && (r[i].masked <==> MustMask(lang, kw, res, s.text, i))
    {
      CollectedCovers(lang, kw, res, s.text, i);
    }
  }

  // ---- reading through the masks ----

  lemma {:induction false} ReadingFromShade(segs: seq<Segment>)
    ensures |Reading(segs)| == |Shade(segs)|
    ensures forall i :: 0 <= i < |Reading(segs)| ==> Reading(segs)[i] == Shade(segs)[i].byte
  {
    if segs != [] {
      ReadingFromShade(segs[1..]);
    }
  }

  lemma MaskOneReading(lang: Lang, kw: set<string>, res: seq<Regex>, s: Segment)
    ensures Reading(MaskOne(lang, kw, res, s)) == Original(s)
  {
    if s.kind == Text {
      MaskingIsExact(lang, kw, res, s);
      ReadingFromShade(MaskOne(lang, kw, res, s));
    } else {
      assert [s][1..] == [];
    }
  }

  /** One mask rule over a message: the reading is conserved. */
  lemma MaskingConserves(lang: Lang, kw: set<string>, res: seq<Regex>, segs: seq<Segment>)
    ensures Reading(FlatMap(segs, Masker(lang, kw, res))) == Reading(segs)
  {
    forall s | s in segs ensures Reading(Masker(lang, kw, res)(s)) == Original(s) {
      MaskOneReading(lang, kw, res, s);
    }
    FlatMapReading(segs, Masker(lang, kw, res));
  }

  // ---- the rewrite, stated outright ----

  /**
    What a mask rule makes of one segment: other kinds, and text with nothing to mask, stay as they
    are; any other text becomes pieces that show it with each run of bytes to mask replaced by the
    asterisks, and keep every byte, masked where it must be.
   */
  ghost predicate Rewritten(s: Segment, pieces: seq<Segment>, lang: Lang, kw: set<string>, res: seq<Regex>) {
    if s.kind != Text || (forall i :: !MustMask(lang, kw, res, s.text, i)) then pieces == [s]
    else
      && (forall x :: x in pieces ==> IsPiece(x))
      && ExactlyMasked(Shade(pieces), lang, kw, res, s.text)
      && exists spans :: Veils(spans, s.text, PlainText(pieces), lang, kw, res)
  }

  /** `shown` is the text with the maximal runs of bytes to mask, `spans`, replaced. */
  ghost predicate Veils(spans: seq<Span>, text: string, shown: string, lang: Lang, kw: set<string>, res: seq<Regex>) {
    && Normal(spans) && InOrder(spans, 0, |text|) && shown == Veil(text, spans, 0)
    && forall i :: Covers(spans, i) <==> MustMask(lang, kw, res, text, i)
  }

  lemma MaskOneRewrites(lang: Lang, kw: set<string>, res: seq<Regex>, s: Segment)
    ensures Rewritten(s, MaskOne(lang, kw, res, s), lang, kw, res)
  {
    if s.kind == Text {
      var spans := Collected(lang, kw, res, s.text);
      forall i ensures Covers(spans, i) <==> MustMask(lang, kw, res, s.text, i) {
        CollectedCovers(lang, kw, res, s.text, i);
      }
      CollectedInOrder(lang, kw, res, s.text);
      if spans == [] {
        assert forall i :: !Covers(spans, i);
      } else {
        FirstIsLeast(spans, spans[0].lo);
        assert MustMask(lang, kw, res, s.text, spans[0].lo);
        MaskingIsExact(lang, kw, res, s);
        SplitVeils(s.text, spans, 0);
        assert Veils(spans, s.text, PlainText(MaskOne(lang, kw, res, s)), lang, kw, res);
      }
    }
  }

  /** Every segment of `before` is rewritten, in order, and `after` is the pieces. */
  ghost predicate AllRewritten(before: seq<Segment>, after: seq<Segment>, lang: Lang, kw: set<string>, res: seq<Regex>)
    decreases |before|
  {
    if before == [] then after == []
    else exists k :: 0 <= k <= |after| && Rewritten(before[0], after[..k], lang, kw, res)
                     && AllRewritten(before[1..], after[k..], lang, kw, res)
  }

  lemma {:induction false} MaskingRewrites(lang: Lang, kw: set<string>, res: seq<Regex>, segs: seq<Segment>)
    ensures AllRewritten(segs, FlatMap(segs, Masker(lang, kw, res)), lang, kw, res)
  {
    if segs != [] {
      var head, rest := MaskOne(lang, kw, res, segs[0]), FlatMap(segs[1..], Masker(lang, kw, res));
      MaskOneRewrites(lang, kw, res, segs[0]);
      MaskingRewrites(lang, kw, res, segs[1..]);
      assert (head + rest)[..|head|] == head && (head + rest)[|head|..] == rest;
    }
  }
}
