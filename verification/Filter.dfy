/**
  Profanity masking (internal/filter/filter.go).  UTF-8 decoding, the word class,
  lower-casing and regular expressions are parameters; text is a string of bytes.
 */
module Filter {
  import opened Spans

  /** What the decoder says of the first rune of a text: is it a letter or digit, and its length in bytes. */
  datatype Rune = Rune(word: bool, size: nat)

  /** The decoder and the lower-casing a filter works with. */
  datatype Codec = Codec(decode: string -> Rune, lower: string -> string)

  /**
    A decoder consumes at least one byte of a nonempty text, never more than there are, and
    what follows a rune does not change it.
   */
  ghost predicate Decodes(lang: Codec) {
    && (forall s: string :: s != "" ==> 1 <= lang.decode(s).size <= |s|)
    && (forall s: string, k: nat :: s != "" && lang.decode(s).size <= k <= |s| ==> lang.decode(Prefix(s, k)) == lang.decode(s))
  }

  function Prefix(s: string, k: nat): string
    requires k <= |s|
  {
    s[..k]
  }

  type Lang = c: Codec | Decodes(c) ghost witness Codec(_ => Rune(false, 1), s => s)

  predicate WordAt(lang: Lang, text: string, i: nat)
    requires i < |text|
  {
    lang.decode(text[i..]).word
  }

  function Next(lang: Lang, text: string, i: nat): (j: nat)
    requires i < |text|
    ensures i < j <= |text|
  {
    assert text[i..] != "";
    i + lang.decode(text[i..]).size
  }

  /** The end of the word run that starts at `i`. */
  function RunEnd(lang: Lang, text: string, i: nat): (e: nat)
    requires i <= |text|
    ensures i <= e <= |text| && (i < e <==> i < |text| && WordAt(lang, text, i))
    ensures e < |text| ==> !WordAt(lang, text, e)
    decreases |text| - i
  {
    if i < |text| && WordAt(lang, text, i) then RunEnd(lang, text, Next(lang, text, i)) else i
  }

  predicate Hit(lang: Lang, kw: set<string>, w: string) {
    lang.lower(w) in kw
  }

  function HitSpan(lang: Lang, kw: set<string>, text: string, i: nat, e: nat): seq<Span>
    requires i <= e <= |text|
  {
    if Hit(lang, kw, text[i..e]) then [Span(i, e)] else []
  }

  /** The runs from `i` on whose lower-cased text is a keyword. */
  function Scan(lang: Lang, kw: set<string>, text: string, i: nat): (r: seq<Span>)
    requires i <= |text|
    decreases |text| - i
  {
    if i == |text| then []
    else if !WordAt(lang, text, i) then Scan(lang, kw, text, Next(lang, text, i))
    else
      var e := RunEnd(lang, text, i);
      HitSpan(lang, kw, text, i, e) + Scan(lang, kw, text, e)
  }

  ghost predicate InRange(re: string -> seq<Span>) {
    forall t: string, sp :: sp in re(t) ==> sp.lo <= sp.hi <= |t|
  }

  /** A regular expression, as the list of matches it finds in a text. */
  type Regex = re: string -> seq<Span> | InRange(re) ghost witness (_ => [])

  function Wide(ms: seq<Span>): seq<Span> {
    if ms == [] then []
    else Wide(ms[..|ms| - 1]) + if ms[|ms| - 1].lo != ms[|ms| - 1].hi then [ms[|ms| - 1]] else []
  }

  function WideAll(res: seq<Regex>, text: string): seq<Span> {
    if res == [] then [] else WideAll(res[..|res| - 1], text) + Wide(res[|res| - 1](text))
  }

  function Candidates(lang: Lang, kw: set<string>, res: seq<Regex>, text: string): seq<Span>
  {
    Scan(lang, kw, text, 0) + WideAll(res, text)
  }

  function Collected(lang: Lang, kw: set<string>, res: seq<Regex>, text: string): seq<Span>
  {
    Merged(Candidates(lang, kw, res, text))
  }

  // ---- what a keyword matches ----

  /** Decoding from `i` reaches `a`. */
  ghost predicate RuneFrom(lang: Lang, text: string, i: nat, a: nat)
    requires i <= |text|
    decreases |text| - i
  {
    i == a || (i < |text| && RuneFrom(lang, text, Next(lang, text, i), a))
  }

  /** Some word rune ends at `a`, decoding from `i`. */
  ghost predicate WordEndsAt(lang: Lang, text: string, i: nat, a: nat)
    requires i <= |text|
    decreases |text| - i
  {
    i < |text| && (if Next(lang, text, i) == a then WordAt(lang, text, i)
                   else WordEndsAt(lang, text, Next(lang, text, i), a))
  }

  /** A maximal run of word runes: a run that no word rune precedes, up to its end. */
  ghost predicate MaximalRun(lang: Lang, text: string, a: nat, b: nat)
  {
    && a < |text| && RuneFrom(lang, text, 0, a) && WordAt(lang, text, a)
    && !WordEndsAt(lang, text, 0, a) && b == RunEnd(lang, text, a)
  }

  lemma {:induction false} RuneFromIsAhead(lang: Lang, text: string, i: nat, a: nat)
    requires i <= |text| && RuneFrom(lang, text, i, a)
    ensures i <= a <= |text|
    decreases |text| - i
  {
    if i != a {
      RuneFromIsAhead(lang, text, Next(lang, text, i), a);
    }
  }

  lemma {:induction false} WordEndsAhead(lang: Lang, text: string, i: nat, a: nat)
    requires i <= |text| && WordEndsAt(lang, text, i, a)
    ensures i < a
    decreases |text| - i
  {
    if Next(lang, text, i) != a {
      WordEndsAhead(lang, text, Next(lang, text, i), a);
    }
  }

  /** Inside a run every rune after the first is preceded by a word rune; past it nothing changes. */
  lemma {:induction false} AcrossRun(lang: Lang, text: string, i: nat, a: nat)
    requires i < |text| && WordAt(lang, text, i)
    ensures var e := RunEnd(lang, text, i);
            RuneFrom(lang, text, i, a) && a != i && !WordEndsAt(lang, text, i, a)
            <==> RuneFrom(lang, text, e, a) && a != e && !WordEndsAt(lang, text, e, a)
    decreases |text| - i
  {
    var j := Next(lang, text, i);
    if RuneFrom(lang, text, i, a) {
      RuneFromIsAhead(lang, text, i, a);
    }
    if RuneFrom(lang, text, RunEnd(lang, text, i), a) {
      RuneFromIsAhead(lang, text, RunEnd(lang, text, i), a);
    }
    if j < |text| && WordAt(lang, text, j) {
      AcrossRun(lang, text, j, a);
    }
  }

  /** What `Scan` finds from a boundary on. */
  lemma {:induction false} ScanFinds(lang: Lang, kw: set<string>, text: string, i: nat, sp: Span)
    requires i <= |text|
    ensures sp in Scan(lang, kw, text, i) <==>
              && sp.lo < |text| && RuneFrom(lang, text, i, sp.lo) && WordAt(lang, text, sp.lo)
              && sp.hi == RunEnd(lang, text, sp.lo) && Hit(lang, kw, text[sp.lo..sp.hi])
              && (sp.lo == i || !WordEndsAt(lang, text, i, sp.lo))
    decreases |text| - i
  {
    if i < |text| {
      if WordAt(lang, text, i) {
        var e := RunEnd(lang, text, i);
        ScanFinds(lang, kw, text, e, sp);
        AcrossRun(lang, text, i, sp.lo);
      } else {
        ScanFinds(lang, kw, text, Next(lang, text, i), sp);
      }
    }
  }

  /** The scan finds exactly the maximal word runs that are keywords. */
  lemma ScanIsKeywordRuns(lang: Lang, kw: set<string>, text: string, sp: Span)
    ensures sp in Scan(lang, kw, text, 0)
            <==> MaximalRun(lang, text, sp.lo, sp.hi) && Hit(lang, kw, text[sp.lo..sp.hi])
  {
    ScanFinds(lang, kw, text, 0, sp);
    if sp.lo == 0 && WordEndsAt(lang, text, 0, 0) {
      WordEndsAhead(lang, text, 0, 0);
    }
  }

  ghost predicate Within(spans: seq<Span>, lo: nat, hi: nat) {
    forall sp :: sp in spans ==> lo <= sp.lo < sp.hi <= hi
  }

  lemma PrependNormal(sp: Span, rest: seq<Span>, n: nat)
    requires Normal(rest) && sp.lo < sp.hi <= n && Within(rest, sp.hi + 1, n)
    ensures Normal([sp] + rest) && Within([sp] + rest, sp.lo, n)
  {
    assert forall k :: 0 <= k < |rest| ==> rest[k] in rest;
  }

  lemma WithinWider(spans: seq<Span>, a: nat, b: nat, n: nat)
    requires Within(spans, b, n) && a <= b
    ensures Within(spans, a, n)
  {
  }

  /** From a rune that is no word on, spans start later. */
  function Earliest(lang: Lang, text: string, i: nat): nat {
    if i < |text| && !WordAt(lang, text, i) then i + 1 else i
  }

  /** Keyword runs are in normal form as found: a rune that is no word separates any two. */
  lemma {:induction false} ScanIsNormal(lang: Lang, kw: set<string>, text: string, i: nat)
    requires i <= |text|
    ensures Normal(Scan(lang, kw, text, i)) && Within(Scan(lang, kw, text, i), Earliest(lang, text, i), |text|)
    decreases |text| - i
  {
    if i < |text| {
      if WordAt(lang, text, i) {
        var e := RunEnd(lang, text, i);
        var rest := Scan(lang, kw, text, e);
        ScanIsNormal(lang, kw, text, e);
        assert e == |text| ==> rest == [];
        if Hit(lang, kw, text[i..e]) {
          PrependNormal(Span(i, e), rest, |text|);
        } else {
          assert [] + rest == rest;
          WithinWider(rest, i, Earliest(lang, text, e), |text|);
        }
      } else {
        var j := Next(lang, text, i);
        ScanIsNormal(lang, kw, text, j);
        WithinWider(Scan(lang, kw, text, j), i + 1, Earliest(lang, text, j), |text|);
      }
    }
  }
}
