/** The filter stage's mask path, as it runs, and what a whole ruleset does to a message. */
module MaskStage {
  import opened Segments
  import opened Spans
  import opened Filter
  import opened Masking
  import opened MaskComposition

  lemma {:induction false} NoKeywords(lang: Lang, text: string, i: nat)
    requires i <= |text|
    ensures Scan(lang, {}, text, i) == []
    decreases |text| - i
  {
    if i < |text| {
      NoKeywords(lang, text, Token(lang, text, i));
    }
  }

  /** The inner loop: on to the first rune that is no word. */
  method FindRunEnd(lang: Lang, text: string, start: nat) returns (i: nat)
    requires start <= |text|
    ensures i == RunEnd(lang, text, start)
  {
    i := start;
    while i < |text|
      invariant start <= i <= |text| && RunEnd(lang, text, i) == RunEnd(lang, text, start)
    {
      var r := lang.decode(text[i..]);
      if !r.word {
        break;
      }
      i := Next(lang, text, i);
    }
  }

  method ScanWords(lang: Lang, kw: set<string>, text: string) returns (spans: seq<Span>)
    ensures spans == Scan(lang, kw, text, 0)
  {
    spans := [];
    if |kw| == 0 {
      NoKeywords(lang, text, 0);
      return;
    }
    var i := 0;
    ghost var whole := Scan(lang, kw, text, 0);
    while i < |text|
      invariant i <= |text| && spans + Scan(lang, kw, text, i) == whole
    {
      var r := lang.decode(text[i..]);
      if !r.word {
        i := Next(lang, text, i);
        continue;
      }
      var start := i;
      i := FindRunEnd(lang, text, start);
      ScanMoves(lang, kw, text, start, i, spans);
      if lang.lower(text[start..i]) in kw {
        spans := spans + [Span(start, i)];
      }
    }
  }

  /** Past one run the scan has found what it held. */
  lemma ScanMoves(lang: Lang, kw: set<string>, text: string, start: nat, e: nat, spans: seq<Span>)
    requires start < |text| && WordAt(lang, text, start) && e == RunEnd(lang, text, start)
    ensures spans + Scan(lang, kw, text, start)
            == (if lang.lower(text[start..e]) in kw then spans + [Span(start, e)] else spans) + Scan(lang, kw, text, e)
  {
    AssociateSpans(spans, HitSpan(lang, kw, text, start, e), Scan(lang, kw, text, e));
    assert spans + [] == spans;
  }

  method WideMatches(ms: seq<Span>) returns (spans: seq<Span>)
    ensures spans == Wide(ms)
    ensures forall sp :: sp in spans <==> sp in ms && sp.lo != sp.hi
  {
    spans := [];
    for i := 0 to |ms|
      invariant spans == Wide(ms[..i])
    {
      assert ms[..i + 1][..i] == ms[..i];
      if ms[i].lo != ms[i].hi {
        spans := spans + [ms[i]];
      }
    }
    assert ms[..|ms|] == ms;
    forall sp ensures sp in spans <==> sp in ms && sp.lo != sp.hi {
      WideFinds(ms, sp);
    }
  }

  method CollectSpans(lang: Lang, kw: set<string>, res: seq<Regex>, text: string) returns (spans: seq<Span>)
    ensures spans == Collected(lang, kw, res, text)
    ensures Normal(spans) && forall i :: Covers(spans, i) <==> MustMask(lang, kw, res, text, i)
  {
    var found := ScanWords(lang, kw, text);
    ghost var words := found;
    for k := 0 to |res|
      invariant found == words + WideAll(res[..k], text)
    {
      var wide := WideMatches(res[k](text));
      assert res[..k + 1][..k] == res[..k];
      AssociateSpans(words, WideAll(res[..k], text), wide);
      found := found + wide;
    }
    assert res[..|res|] == res;
    var buf := new Span[|found|](i requires 0 <= i < |found| => found[i]);
    assert buf[..] == found;
    var m := MergeSpans(buf);
    spans := buf[..m];
    CollectedInOrder(lang, kw, res, text);
    forall i ensures Covers(spans, i) <==> MustMask(lang, kw, res, text, i) {
      CollectedCovers(lang, kw, res, text, i);
    }
  }

  method SplitMasked(text: string, spans: seq<Span>) returns (segs: seq<Segment>)
    requires InOrder(spans, 0, |text|)
    ensures segs == Split(text, spans, 0)
    ensures PlainText(segs) == Veil(text, spans, 0) && forall s :: s in segs ==> IsPiece(s)
  {
    SplitVeils(text, spans, 0);
    segs := [];
    var cursor: nat := 0;
    for i := 0 to |spans|
      invariant InOrder(spans[i..], cursor, |text|)
      invariant segs + Split(text, spans[i..], cursor) == Split(text, spans, 0)
    {
      var sp := spans[i];
      assert spans[i..][0] == sp && spans[i..][1..] == spans[i + 1..];
      InOrderFits(spans[i + 1..], sp.hi, |text|);
      ghost var here := Plain(text, cursor, sp.lo) + [MaskedSegment(text[sp.lo..sp.hi])];
      ghost var was := segs;
      if sp.lo > cursor {
        segs := segs + [TextSegment(text[cursor..sp.lo])];
      }
      segs := segs + [MaskedSegment(text[sp.lo..sp.hi])];
      assert segs == was + here;
      Associate3(was, here, Split(text, spans[i + 1..], sp.hi));
      cursor := sp.hi;
    }
    assert spans[|spans|..] == [];
    if cursor < |text| {
      assert text[cursor..|text|] == text[cursor..];
      segs := segs + [TextSegment(text[cursor..])];
    }
  }

  lemma Associate3(x: seq<Segment>, y: seq<Segment>, z: seq<Segment>)
    ensures x + (y + z) == (x + y) + z
  {
  }

  // ---- a message under a ruleset ----

  datatype Action = Hide | Highlight | Mask

  /** A compiled rule; whether its platform, channel, author and type scope admits the message is given. */
  datatype Rule = Rule(action: Action, inScope: bool, keywords: set<string>, regexes: seq<Regex>)

  ghost predicate Hits(lang: Lang, kw: set<string>, res: seq<Regex>, segs: seq<Segment>) {
    exists s :: s in segs && s.kind == Text && Collected(lang, kw, res, s.text) != []
  }

  /** The stage reports a mask exactly when some byte of some text segment must be masked. */
  lemma HitsIff(lang: Lang, kw: set<string>, res: seq<Regex>, segs: seq<Segment>)
    ensures Hits(lang, kw, res, segs)
            <==> exists s, i :: s in segs && s.kind == Text && MustMask(lang, kw, res, s.text, i)
  {
    if Hits(lang, kw, res, segs) {
      var s :| s in segs && s.kind == Text && Collected(lang, kw, res, s.text) != [];
      var first := Collected(lang, kw, res, s.text)[0];
      CollectedInOrder(lang, kw, res, s.text);
      assert first in Collected(lang, kw, res, s.text) && Inside(first, first.lo);
      CollectedCovers(lang, kw, res, s.text, first.lo);
    }
    if s, i :| s in segs && s.kind == Text && MustMask(lang, kw, res, s.text, i) {
      CollectedCovers(lang, kw, res, s.text, i);
    }
  }

  lemma NothingToMask(lang: Lang, kw: set<string>, res: seq<Regex>, segs: seq<Segment>)
    requires !Hits(lang, kw, res, segs)
    ensures FlatMap(segs, Masker(lang, kw, res)) == segs
  {
    FlatMapSame(segs, Masker(lang, kw, res));
  }

  lemma NoTerms(lang: Lang, segs: seq<Segment>)
    ensures !Hits(lang, {}, [], segs)
  {
    forall s | s in segs ensures Collected(lang, {}, [], s.text) == [] {
      KeywordsOnly(lang, {}, s.text);
      NoKeywords(lang, s.text, 0);
    }
  }

  function Applied(lang: Lang, segs: seq<Segment>, r: Rule): seq<Segment> {
    if r.inScope && r.action == Mask then FlatMap(segs, Masker(lang, r.keywords, r.regexes)) else segs
  }

  function AppliedAll(lang: Lang, segs: seq<Segment>, rules: seq<Rule>): seq<Segment> {
    if rules == [] then segs else Applied(lang, AppliedAll(lang, segs, rules[..|rules| - 1]), rules[|rules| - 1])
  }

  ghost predicate RuleHits(lang: Lang, segs: seq<Segment>, r: Rule) {
    r.inScope && r.action == Mask && Hits(lang, r.keywords, r.regexes, segs)
  }

  /** Some mask rule finds something in what the rules before it left. */
  ghost predicate AnyHits(lang: Lang, segs: seq<Segment>, rules: seq<Rule>) {
    rules != [] &&
      (|| AnyHits(lang, segs, rules[..|rules| - 1])
       || RuleHits(lang, AppliedAll(lang, segs, rules[..|rules| - 1]), rules[|rules| - 1]))
  }

  /** The loop over the segments. */
  method RewriteSegments(lang: Lang, kw: set<string>, res: seq<Regex>, segs: seq<Segment>)
      returns (out: seq<Segment>, hit: bool)
    ensures hit <==> Hits(lang, kw, res, segs)
    ensures out == FlatMap(segs, Masker(lang, kw, res))
  {
    hit, out := false, [];
    for i := 0 to |segs|
      invariant hit <==> Hits(lang, kw, res, segs[..i])
      invariant out == FlatMap(segs[..i], Masker(lang, kw, res))
    {
      var seg := segs[i];
      assert segs[..i + 1] == segs[..i] + [seg];
      FlatMapSnoc(segs[..i], seg, Masker(lang, kw, res));
      HitsSnoc(lang, kw, res, segs[..i], seg);
      if seg.kind != Text {
        out := out + [seg];
      } else {
        var spans := CollectSpans(lang, kw, res, seg.text);
        if |spans| == 0 {
          out := out + [seg];
        } else {
          hit := true;
          CollectedInOrder(lang, kw, res, seg.text);
          var pieces := SplitMasked(seg.text, spans);
          out := out + pieces;
        }
      }
    }
    assert segs[..|segs|] == segs;
  }

  /** One rule's effect: a mask rule in scope rewrites the content, any other leaves it. */
  ghost predicate RuleDid(lang: Lang, before: seq<Segment>, after: seq<Segment>, r: Rule) {
    if r.inScope && r.action == Mask then AllRewritten(before, after, lang, r.keywords, r.regexes) else after == before
  }

  ghost predicate HasByteToMask(lang: Lang, segs: seq<Segment>, r: Rule) {
    exists s, i :: s in segs && s.kind == Text && MustMask(lang, r.keywords, r.regexes, s.text, i)
  }

  /** The content before the first rule and after each one in turn. */
  ghost predicate RulesDid(lang: Lang, before: seq<Segment>, after: seq<Segment>, rules: seq<Rule>,
                           states: seq<seq<Segment>>) {
    && |states| == |rules| + 1 && states[0] == before && states[|rules|] == after
    && forall k :: 0 <= k < |rules| ==> RuleDid(lang, states[k], states[k + 1], rules[k])
  }

  lemma RulesDidSnoc(lang: Lang, first: seq<Segment>, before: seq<Segment>, after: seq<Segment>, rules: seq<Rule>, r: Rule,
                     states: seq<seq<Segment>>)
    requires RulesDid(lang, first, before, rules, states) && RuleDid(lang, before, after, r)
    ensures RulesDid(lang, first, after, rules + [r], states + [after])
  {
    var all, more := states + [after], rules + [r];
    forall k | 0 <= k < |more| ensures RuleDid(lang, all[k], all[k + 1], more[k]) {
      if k < |rules| {
        assert all[k] == states[k] && all[k + 1] == states[k + 1] && more[k] == rules[k];
      }
    }
  }

  class Message {
    var segments: seq<Segment>
    var masked: bool

    constructor (segments: seq<Segment>)
      ensures this.segments == segments && !masked
    {
      this.segments := segments;
      masked := false;
    }

    method MaskSegments(lang: Lang, kw: set<string>, res: seq<Regex>) returns (hit: bool)
      modifies this`segments
      ensures hit <==> Hits(lang, kw, res, old(segments))
      ensures segments == FlatMap(old(segments), Masker(lang, kw, res))
      ensures AllRewritten(old(segments), segments, lang, kw, res)
    {
      MaskingRewrites(lang, kw, res, segments);
      if |kw| == 0 && |res| == 0 {
        assert kw == {} && res == [];
        NoTerms(lang, segments);
        NothingToMask(lang, kw, res, segments);
        return false;
      }
      var out: seq<Segment>;
      out, hit := RewriteSegments(lang, kw, res, segments);
      if hit {
        segments := out;
      } else {
        NothingToMask(lang, kw, res, segments);
      }
    }

    /** One rule; hide and highlight rules leave the content alone. */
    method ApplyRule(lang: Lang, r: Rule)
      modifies this
      ensures segments == Applied(lang, old(segments), r)
      ensures masked <==> old(masked) || RuleHits(lang, old(segments), r)
      ensures masked <==> old(masked) || (r.inScope && r.action == Mask && HasByteToMask(lang, old(segments), r))
      ensures RuleDid(lang, old(segments), segments, r)
    {
      HitsIff(lang, r.keywords, r.regexes, segments);
      if r.inScope && r.action == Mask {
        var hit := MaskSegments(lang, r.keywords, r.regexes);
        if hit {
          masked := true;
        }
      }
    }

    /** The stage over a ruleset. */
    method Annotate(lang: Lang, rules: seq<Rule>)
      modifies this
      ensures segments == AppliedAll(lang, old(segments), rules)
      ensures masked <==> old(masked) || AnyHits(lang, old(segments), rules)
      ensures exists states :: RulesDid(lang, old(segments), segments, rules, states)
    {
      ghost var states := ApplyAll(lang, rules);
    }

    method ApplyAll(lang: Lang, rules: seq<Rule>) returns (ghost states: seq<seq<Segment>>)
      modifies this
      ensures Progress(lang, old(segments), segments, old(masked), masked, rules, states)
    {
      states := [segments];
      ghost var done: seq<Rule> := [];
      ghost var first, masked0 := segments, masked;
      for i := 0 to |rules|
        invariant done == rules[..i]
        invariant Progress(lang, first, segments, masked0, masked, done, states)
      {
        ghost var before, was := segments, masked;
        ApplyRule(lang, rules[i]);
        ProgressStep(lang, first, before, segments, masked0, was, masked, done, rules[i], states);
        done, states := done + [rules[i]], states + [segments];
      }
      assert done == rules;
    }
  }

  /** Where the stage stands after `rules`. */
  ghost predicate Progress(lang: Lang, first: seq<Segment>, segs: seq<Segment>, masked0: bool, masked: bool, rules: seq<Rule>,
                           states: seq<seq<Segment>>) {
    && segs == AppliedAll(lang, first, rules) && (masked <==> masked0 || AnyHits(lang, first, rules))
    && RulesDid(lang, first, segs, rules, states)
  }

  lemma ProgressStep(lang: Lang, first: seq<Segment>, before: seq<Segment>, after: seq<Segment>,
                     masked0: bool, was: bool, masked: bool, rules: seq<Rule>, r: Rule, states: seq<seq<Segment>>)
    requires Progress(lang, first, before, masked0, was, rules, states)
    requires after == Applied(lang, before, r) && (masked <==> was || RuleHits(lang, before, r))
    requires RuleDid(lang, before, after, r)
    ensures Progress(lang, first, after, masked0, masked, rules + [r], states + [after])
  {
    assert (rules + [r])[..|rules|] == rules;
    RulesDidSnoc(lang, first, before, after, rules, r, states);
  }

  lemma HitsSnoc(lang: Lang, kw: set<string>, res: seq<Regex>, segs: seq<Segment>, s: Segment)
    ensures Hits(lang, kw, res, segs + [s])
            <==> Hits(lang, kw, res, segs) || (s.kind == Text && Collected(lang, kw, res, s.text) != [])
  {
    assert s in segs + [s];
    assert forall x :: x in segs ==> x in segs + [s];
  }

  // ---- whole rulesets ----

  /** No ruleset, regular expressions included, loses or reorders a byte of what the author wrote. */
  lemma {:induction false} RulesetConserves(lang: Lang, segs: seq<Segment>, rules: seq<Rule>)
    ensures Reading(AppliedAll(lang, segs, rules)) == Reading(segs)
  {
    if rules != [] {
      var init, r := rules[..|rules| - 1], rules[|rules| - 1];
      RulesetConserves(lang, segs, init);
      MaskingConserves(lang, r.keywords, r.regexes, AppliedAll(lang, segs, init));
    }
  }

  /** The keywords of the mask rules in scope. */
  function AllKeywords(rules: seq<Rule>): set<string> {
    if rules == [] then {}
    else
      var r := rules[|rules| - 1];
      AllKeywords(rules[..|rules| - 1]) + if r.inScope && r.action == Mask then r.keywords else {}
  }

  /** The rules that mask this message carry keywords only. */
  ghost predicate KeywordRules(rules: seq<Rule>) {
    forall r :: r in rules && r.inScope && r.action == Mask ==> r.regexes == []
  }

  /** A ruleset of keyword rules, in any order, masks once with the union of their keywords. */
  lemma {:induction false} RulesetIsOnePass(lang: Lang, segs: seq<Segment>, rules: seq<Rule>)
    requires KeywordRules(rules)
    ensures AppliedAll(lang, segs, rules) == FlatMap(segs, Masker(lang, AllKeywords(rules), []))
  {
    if rules == [] {
      NoTerms(lang, segs);
      NothingToMask(lang, {}, [], segs);
    } else {
      var init, r := rules[..|rules| - 1], rules[|rules| - 1];
      RulesetIsOnePass(lang, segs, init);
      assert r in rules;
      if r.inScope && r.action == Mask {
        MaskingComposes(lang, AllKeywords(init), r.keywords, segs);
      } else {
        assert AllKeywords(init) + {} == AllKeywords(init);
      }
    }
  }

  /** So rulesets with the same keywords in scope give the same message, and masking again changes nothing. */
  lemma RuleOrderIsIrrelevant(lang: Lang, segs: seq<Segment>, a: seq<Rule>, b: seq<Rule>)
    requires KeywordRules(a) && KeywordRules(b) && AllKeywords(a) == AllKeywords(b)
    ensures AppliedAll(lang, segs, a) == AppliedAll(lang, segs, b)
    ensures AppliedAll(lang, AppliedAll(lang, segs, a), b) == AppliedAll(lang, segs, a)
  {
    RulesetIsOnePass(lang, segs, a);
    RulesetIsOnePass(lang, segs, b);
    RulesetIsOnePass(lang, AppliedAll(lang, segs, a), b);
    MaskingCommutes(lang, AllKeywords(a), AllKeywords(a), segs);
  }
}
