/**
  Third-party emotes (internal/emotes/emotes.go): merging providers into a set, and
  turning whole space-delimited words of text segments into emote segments.
 */
module Emotes {
  import opened Segments
  import Filter
  import MaskStage

  /** The emotes of a channel, by name. */
  type EmoteSet = map<string, EmoteRef>

  // ---- merging ----

  function Flatten(groups: seq<seq<EmoteRef>>): seq<EmoteRef> {
    if groups == [] then [] else Flatten(groups[..|groups| - 1]) + groups[|groups| - 1]
  }

  /** Index `k` is where `name` first occurs. */
  ghost predicate FirstAt(es: seq<EmoteRef>, name: string, k: int) {
    0 <= k < |es| && es[k].name == name && forall j :: 0 <= j < k ==> es[j].name != name
  }

  /** The set holds, for every name but the empty one, the first emote of that name and nothing else. */
  ghost predicate FirstWins(m: EmoteSet, es: seq<EmoteRef>) {
    && (forall k :: 0 <= k < |es| && es[k].name != "" ==> es[k].name in m)
    && (forall name :: name in m ==> name != "" && exists k :: FirstAt(es, name, k) && m[name] == es[k])
  }

  function Taken(m: EmoteSet, e: EmoteRef): EmoteSet {
    if e.name == "" || e.name in m then m else m[e.name := e]
  }

  lemma TakenKeepsFirst(m: EmoteSet, es: seq<EmoteRef>, e: EmoteRef)
    requires FirstWins(m, es)
    ensures FirstWins(Taken(m, e), es + [e])
  {
    var after, all := Taken(m, e), es + [e];
    forall name | name in after ensures name != "" && exists k :: FirstAt(all, name, k) && after[name] == all[k] {
      if name in m {
        var k :| FirstAt(es, name, k) && m[name] == es[k];
        assert FirstAt(all, name, k);
      } else {
        assert FirstAt(all, name, |es|);
      }
    }
  }

  method Merge(groups: seq<seq<EmoteRef>>) returns (m: EmoteSet)
    ensures FirstWins(m, Flatten(groups))
  {
    m := map[];
    for g := 0 to |groups|
      invariant FirstWins(m, Flatten(groups[..g]))
    {
      ghost var before := Flatten(groups[..g]);
      assert groups[..g + 1][..g] == groups[..g];
      assert before + groups[g][..0] == before;
      for i := 0 to |groups[g]|
        invariant FirstWins(m, before + groups[g][..i])
      {
        var e := groups[g][i];
        assert before + groups[g][..i + 1] == before + groups[g][..i] + [e];
        TakenKeepsFirst(m, before + groups[g][..i], e);
        if e.name == "" {
          continue;
        }
        if e.name !in m {
          m := m[e.name := e];
        }
      }
      assert groups[g][..|groups[g]|] == groups[g];
    }
    assert groups[..|groups|] == groups;
  }

  // ---- words ----

  /** text[a..b] is a whole word: no space inside, and a space or an end of the text on either side. */
  ghost predicate IsWord(text: string, a: int, b: int) {
    && 0 <= a < b <= |text| && (forall i :: a <= i < b ==> text[i] != ' ')
    && (a == 0 || text[a - 1] == ' ') && (b == |text| || text[b] == ' ')
  }

  ghost predicate EmoteWord(names: EmoteSet, text: string, a: int, b: int) {
    IsWord(text, a, b) && text[a..b] in names
  }

  ghost predicate Contains(names: EmoteSet, text: string) {
    exists a, b :: EmoteWord(names, text, a, b)
  }

  /** A position no word straddles. */
  predicate Boundary(text: string, i: nat) {
    i <= |text| && (i == 0 || i == |text| || text[i] == ' ' || text[i - 1] == ' ')
  }

  function WordEnd(text: string, i: nat): (e: nat)
    requires i <= |text|
    ensures i <= e <= |text| && (forall k :: i <= k < e ==> text[k] != ' ') && (e < |text| ==> text[e] == ' ')
    decreases |text| - i
  {
    if i < |text| && text[i] != ' ' then WordEnd(text, i + 1) else i
  }

  method FindWordEnd(text: string, i: nat) returns (j: nat)
    requires i <= |text|
    ensures j == WordEnd(text, i)
  {
    j := i;
    while j < |text| && text[j] != ' '
      invariant i <= j <= |text| && WordEnd(text, j) == WordEnd(text, i)
    {
      j := j + 1;
    }
  }

  /** The word that starts at a boundary is the only one there. */
  lemma WordHere(text: string, i: nat, a: int, b: int)
    requires Boundary(text, i) && i < |text| && text[i] != ' '
    ensures IsWord(text, i, WordEnd(text, i))
    ensures IsWord(text, a, b) && i < b && a < WordEnd(text, i) ==> a == i && b == WordEnd(text, i)
  {
  }

  method ContainsEmote(text: string, names: EmoteSet) returns (r: bool)
    ensures r <==> Contains(names, text)
  {
    var i := 0;
    while i < |text|
      invariant Boundary(text, i)
      invariant forall a, b :: EmoteWord(names, text, a, b) ==> i <= a
    {
      if text[i] == ' ' {
        i := i + 1;
        continue;
      }
      var j := FindWordEnd(text, i);
      WordHere(text, i, i, j);
      if text[i..j] in names {
        assert EmoteWord(names, text, i, j);
        return true;
      }
      forall a, b | EmoteWord(names, text, a, b) ensures j <= a {
        WordHere(text, i, a, b);
      }
      i := j;
    }
    return false;
  }

  // ---- rewriting one text ----

  function EmoteSegment(e: EmoteRef, word: string): Segment {
    Segment(Emote, word, EmoteAt(e), 0, "")
  }

  function Flushed(buf: string): seq<Segment> {
    if |buf| > 0 then [TextSegment(buf)] else []
  }

  /** The rewrite from `i` on, with `buf` the text gathered since the last emote. */
  function Rewrite(names: EmoteSet, text: string, i: nat, buf: string): seq<Segment>
    requires i <= |text|
    decreases |text| - i
  {
    if i == |text| then Flushed(buf)
    else if text[i] == ' ' then Rewrite(names, text, i + 1, buf + " ")
    else
      var e := WordEnd(text, i);
      var word := text[i..e];
      if word in names then Flushed(buf) + [EmoteSegment(names[word], word)] + Rewrite(names, text, e, "")
      else Rewrite(names, text, e, buf + word)
  }

  method ApplyEmotes(text: string, names: EmoteSet) returns (segs: seq<Segment>, changed: bool)
    ensures changed <==> Contains(names, text)
    ensures segs == if changed then Rewrite(names, text, 0, "") else []
  {
    changed := ContainsEmote(text, names);
    segs := [];
    if !changed {
      return;
    }
    var buf := "";
    var i := 0;
    while i < |text|
      invariant i <= |text| && segs + Rewrite(names, text, i, buf) == Rewrite(names, text, 0, "")
    {
      if text[i] == ' ' {
        buf := buf + " ";
        i := i + 1;
        continue;
      }
      var j := FindWordEnd(text, i);
      var word := text[i..j];
      if word in names {
        Regroup(segs, Flushed(buf), [EmoteSegment(names[word], word)], Rewrite(names, text, j, ""));
        if |buf| > 0 {
          segs := segs + [TextSegment(buf)];
          buf := "";
        }
        segs := segs + [EmoteSegment(names[word], word)];
      } else {
        buf := buf + word;
      }
      i := j;
    }
    if |buf| > 0 {
      segs := segs + [TextSegment(buf)];
    }
  }

  lemma Regroup(x: seq<Segment>, f: seq<Segment>, e: seq<Segment>, r: seq<Segment>)
    ensures x + ((f + e) + r) == ((x + f) + e) + r
  {
  }

  // ---- the text is unchanged ----

  lemma FlushedText(buf: string)
    ensures PlainText(Flushed(buf)) == buf && Reading(Flushed(buf)) == buf
  {
    if |buf| > 0 {
      assert [TextSegment(buf)][1..] == [];
    }
  }

  lemma OneText(s: Segment)
    ensures PlainText([s]) == s.text && Reading([s]) == Original(s)
  {
    assert [s][1..] == [];
  }

  lemma {:induction false} RewriteText(names: EmoteSet, text: string, i: nat, buf: string)
    requires i <= |text|
    ensures PlainText(Rewrite(names, text, i, buf)) == buf + text[i..]
    ensures Reading(Rewrite(names, text, i, buf)) == buf + text[i..]
    decreases |text| - i
  {
    FlushedText(buf);
    if i < |text| {
      if text[i] == ' ' {
        RewriteText(names, text, i + 1, buf + " ");
        assert buf + " " + text[i + 1..] == buf + text[i..];
      } else {
        var e := WordEnd(text, i);
        var word := text[i..e];
        assert text[i..] == word + text[e..];
        if word in names {
          RewriteText(names, text, e, "");
          EmoteText(Flushed(buf), EmoteSegment(names[word], word), Rewrite(names, text, e, ""));
          assert "" + text[e..] == text[e..];
          Associate(buf, word, text[e..]);
        } else {
          RewriteText(names, text, e, buf + word);
          Associate(buf, word, text[e..]);
        }
      }
    }
  }

  lemma EmoteText(f: seq<Segment>, s: Segment, r: seq<Segment>)
    ensures PlainText(f + [s] + r) == PlainText(f) + s.text + PlainText(r)
    ensures Reading(f + [s] + r) == Reading(f) + Original(s) + Reading(r)
  {
    PlainTextConcat(f + [s], r);
    PlainTextConcat(f, [s]);
    ReadingConcat(f + [s], r);
    ReadingConcat(f, [s]);
    OneText(s);
  }

  // ---- exactly the whole words of the set ----

  /** A byte, and whether it lies in an emote segment. */
  datatype Marked = Marked(byte: char, emote: bool)

  function MarkText(text: string, emote: bool): seq<Marked> {
    seq(|text|, i requires 0 <= i < |text| => Marked(text[i], emote))
  }

  function Marks(segs: seq<Segment>): seq<Marked> {
    if segs == [] then [] else MarkText(segs[0].text, segs[0].kind == Emote) + Marks(segs[1..])
  }

  lemma AssociateMarks(x: seq<Marked>, y: seq<Marked>, z: seq<Marked>)
    ensures (x + y) + z == x + (y + z)
  {
  }

  lemma {:induction false} MarksConcat(a: seq<Segment>, b: seq<Segment>)
    ensures Marks(a + b) == Marks(a) + Marks(b)
  {
    if a == [] {
      assert a + b == b;
    } else {
      MarksConcat(a[1..], b);
      assert (a + b)[0] == a[0] && (a + b)[1..] == a[1..] + b;
      AssociateMarks(MarkText(a[0].text, a[0].kind == Emote), Marks(a[1..]), Marks(b));
    }
  }

  /** Byte `k` belongs to a whole word of the set. */
  ghost predicate InEmoteWord(names: EmoteSet, text: string, k: int) {
    exists a, b :: EmoteWord(names, text, a, b) && a <= k < b
  }

  ghost function MarkBy(names: EmoteSet, text: string, i: nat, e: nat): seq<Marked>
    requires i <= e <= |text|
  {
    seq(e - i, k requires 0 <= k < (e - i) => Marked(text[i + k], InEmoteWord(names, text, i + k)))
  }

  lemma MarkByJoin(names: EmoteSet, text: string, a: nat, b: nat)
    requires a <= b <= |text|
    ensures MarkBy(names, text, a, b) + MarkBy(names, text, b, |text|) == MarkBy(names, text, a, |text|)
  {
  }

  /** A word is marked all over or not at all; a space never is. */
  lemma WordMarks(names: EmoteSet, text: string, i: nat)
    requires Boundary(text, i) && i < |text| && text[i] != ' '
    ensures MarkBy(names, text, i, WordEnd(text, i)) == MarkText(text[i..WordEnd(text, i)], text[i..WordEnd(text, i)] in names)
  {
    var e := WordEnd(text, i);
    WordHere(text, i, i, e);
    forall k | i <= k < e ensures InEmoteWord(names, text, k) <==> text[i..e] in names {
      if InEmoteWord(names, text, k) {
        var a, b :| EmoteWord(names, text, a, b) && a <= k < b;
        WordHere(text, i, a, b);
      }
      if text[i..e] in names {
        assert EmoteWord(names, text, i, e);
      }
    }
  }

  lemma SpaceMarks(names: EmoteSet, text: string, i: nat)
    requires i < |text| && text[i] == ' '
    ensures MarkBy(names, text, i, i + 1) == MarkText(" ", false)
  {
    assert !InEmoteWord(names, text, i);
    assert MarkBy(names, text, i, i + 1)[0] == Marked(' ', false);
  }

  lemma MarkTextConcat(x: string, y: string)
    ensures MarkText(x + y, false) == MarkText(x, false) + MarkText(y, false)
  {
  }

  lemma OneMark(s: Segment)
    ensures Marks([s]) == MarkText(s.text, s.kind == Emote)
  {
    assert [s][1..] == [];
  }

  lemma FlushedMarks(buf: string)
    ensures Marks(Flushed(buf)) == MarkText(buf, false)
  {
    if |buf| > 0 {
      OneMark(TextSegment(buf));
    }
  }

  lemma EmoteMarks(f: seq<Segment>, s: Segment, r: seq<Segment>)
    ensures Marks(f + [s] + r) == Marks(f) + (MarkText(s.text, s.kind == Emote) + Marks(r))
  {
    MarksConcat(f + [s], r);
    MarksConcat(f, [s]);
    OneMark(s);
    AssociateMarks(Marks(f), Marks([s]), Marks(r));
  }

  lemma {:induction false} RewriteMarks(names: EmoteSet, text: string, i: nat, buf: string)
    requires Boundary(text, i)
    ensures Marks(Rewrite(names, text, i, buf)) == MarkText(buf, false) + MarkBy(names, text, i, |text|)
    decreases |text| - i
  {
    FlushedMarks(buf);
    if i < |text| {
      if text[i] == ' ' {
        RewriteMarks(names, text, i + 1, buf + " ");
        SpaceMarks(names, text, i);
        MarkTextConcat(buf, " ");
        MarkByJoin(names, text, i, i + 1);
        AssociateMarks(MarkText(buf, false), MarkText(" ", false), MarkBy(names, text, i + 1, |text|));
      } else {
        var e := WordEnd(text, i);
        var word := text[i..e];
        WordMarks(names, text, i);
        MarkByJoin(names, text, i, e);
        if word in names {
          RewriteMarks(names, text, e, "");
          EmoteMarks(Flushed(buf), EmoteSegment(names[word], word), Rewrite(names, text, e, ""));
          assert MarkText("", false) + MarkBy(names, text, e, |text|) == MarkBy(names, text, e, |text|);
        } else {
          RewriteMarks(names, text, e, buf + word);
          MarkTextConcat(buf, word);
          AssociateMarks(MarkText(buf, false), MarkText(word, false), MarkBy(names, text, e, |text|));
        }
      }
    }
  }

  // ---- one segment for each word ----

  /** Segment `k` is an emote that spans bytes a to b of the plain text. */
  ghost predicate EmoteSpans(segs: seq<Segment>, k: int, a: int, b: int) {
    0 <= k < |segs| && segs[k].kind == Emote && |PlainText(segs[..k])| == a && a + |segs[k].text| == b
  }

  /** Some one emote segment spans bytes a to b of the plain text. */
  ghost predicate ShownAt(segs: seq<Segment>, a: int, b: int) {
    exists k :: EmoteSpans(segs, k, a, b)
  }

  lemma ShownInRest(f: seq<Segment>, r: seq<Segment>, k: int, a: int, b: int)
    ensures EmoteSpans(r, k, a, b) ==> EmoteSpans(f + r, |f| + k, |PlainText(f)| + a, |PlainText(f)| + b)
    ensures EmoteSpans(f + r, k, a, b) && k >= |f| ==> EmoteSpans(r, k - |f|, a - |PlainText(f)|, b - |PlainText(f)|)
  {
    if 0 <= k < |r| {
      assert (f + r)[..|f| + k] == f + r[..k];
      PlainTextConcat(f, r[..k]);
    }
    if |f| <= k < |f + r| {
      assert (f + r)[..k] == f + r[..k - |f|];
      PlainTextConcat(f, r[..k - |f|]);
    }
  }

  /** Text, then an emote, then the rest: the emote's own span, and those of the rest. */
  lemma ShownAround(buf: string, s: Segment, r: seq<Segment>, a: int, b: int)
    requires s.kind == Emote
    ensures ShownAt(Flushed(buf) + [s] + r, a, b) <==>
              || (a == |buf| && b == a + |s.text|)
              || ShownAt(r, a - |buf| - |s.text|, b - |buf| - |s.text|)
  {
    var f := Flushed(buf);
    var all, front := f + [s] + r, f + [s];
    FlushedText(buf);
    PlainTextConcat(f, [s]);
    OneText(s);
    assert all[..|f|] == f && all[|f|] == s && all == front + r;
    assert EmoteSpans(all, |f|, |buf|, |buf| + |s.text|);
    if ShownAt(all, a, b) {
      var k :| EmoteSpans(all, k, a, b);
      assert k < |f| ==> all[k] == TextSegment(buf);
      ShownInRest(front, r, k, a, b);
      assert k > |f| ==> EmoteSpans(r, k - |front|, a - |buf| - |s.text|, b - |buf| - |s.text|);
    }
    if ShownAt(r, a - |buf| - |s.text|, b - |buf| - |s.text|) {
      var k :| EmoteSpans(r, k, a - |buf| - |s.text|, b - |buf| - |s.text|);
      ShownInRest(front, r, k, a - |buf| - |s.text|, b - |buf| - |s.text|);
      assert EmoteSpans(all, |front| + k, a, b);
    }
  }

  /** From a boundary on, the emote segments are one for one the words of the set. */
  lemma {:induction false} RewriteShows(names: EmoteSet, text: string, i: nat, buf: string, a: int, b: int)
    requires Boundary(text, i) && |buf| <= i
    ensures ShownAt(Rewrite(names, text, i, buf), a - i + |buf|, b - i + |buf|) <==> EmoteWord(names, text, a, b) && i <= a
    decreases |text| - i
  {
    if i == |text| {
      assert forall k :: 0 <= k < |Flushed(buf)| ==> Flushed(buf)[k].kind == Text;
    } else if text[i] == ' ' {
      RewriteShows(names, text, i + 1, buf + " ", a, b);
    } else {
      var e := WordEnd(text, i);
      var word := text[i..e];
      WordHere(text, i, a, b);
      if word in names {
        RewriteShows(names, text, e, "", a, b);
        ShownAround(buf, EmoteSegment(names[word], word), Rewrite(names, text, e, ""), a - i + |buf|, b - i + |buf|);
      } else {
        RewriteShows(names, text, e, buf + word, a, b);
      }
    }
  }

  // ---- nothing is left for a second pass ----

  /** A word of a longer text that ends by `n`, before a space or at its end, is a word of its first n bytes. */
  lemma WordOfPrefix(names: EmoteSet, t: string, n: nat, a: int, b: int)
    requires n <= |t| && EmoteWord(names, t, a, b) && b <= n
    ensures EmoteWord(names, t[..n], a, b)
  {
    assert t[..n][a..b] == t[a..b];
  }

  lemma AppendSpace(names: EmoteSet, buf: string)
    requires !Contains(names, buf)
    ensures !Contains(names, buf + " ")
  {
    var t := buf + " ";
    assert t[..|buf|] == buf && t[|buf|] == ' ';
    if Contains(names, t) {
      var a, b :| EmoteWord(names, t, a, b);
      WordOfPrefix(names, t, |buf|, a, b);
    }
  }

  lemma AppendWord(names: EmoteSet, buf: string, word: string)
    requires !Contains(names, buf) && (buf == "" || buf[|buf| - 1] == ' ')
    requires word != "" && (forall k :: 0 <= k < |word| ==> word[k] != ' ') && word !in names
    ensures !Contains(names, buf + word)
  {
    var t := buf + word;
    if Contains(names, t) {
      var a, b :| EmoteWord(names, t, a, b);
      assert t[..|buf|] == buf && t[|buf|..] == word;
      LastWord(t, |buf|, a, b);
      if a < |buf| {
        WordOfPrefix(names, t, |buf|, a, b);
      }
    }
  }

  lemma LastWord(t: string, n: nat, a: int, b: int)
    requires n < |t| && IsWord(t, a, b) && (n == 0 || t[n - 1] == ' ') && forall k :: n <= k < |t| ==> t[k] != ' '
    ensures if a < n then b <= n else a == n && b == |t| && t[a..b] == t[n..]
  {
    WordHere(t, n, a, b);
  }

  ghost predicate Settled(names: EmoteSet, s: Segment) {
    s.kind == Emote || (s.kind == Text && !Contains(names, s.text))
  }

  lemma {:induction false} RewriteSettles(names: EmoteSet, text: string, i: nat, buf: string)
    requires Boundary(text, i) && !Contains(names, buf)
    requires i < |text| && text[i] != ' ' ==> buf == "" || buf[|buf| - 1] == ' '
    ensures forall s :: s in Rewrite(names, text, i, buf) ==> Settled(names, s)
    decreases |text| - i
  {
    if i < |text| {
      if text[i] == ' ' {
        AppendSpace(names, buf);
        RewriteSettles(names, text, i + 1, buf + " ");
      } else {
        var e := WordEnd(text, i);
        var word := text[i..e];
        if word in names {
          RewriteSettles(names, text, e, "");
        } else {
          assert forall k :: 0 <= k < |word| ==> word[k] != ' ';
          AppendWord(names, buf, word);
          RewriteSettles(names, text, e, buf + word);
        }
      }
    }
  }

  /** Every emote segment shows a word of the set with the emote the set gives it. */
  lemma {:induction false} RewriteRefs(names: EmoteSet, text: string, i: nat, buf: string)
    requires i <= |text|
    ensures forall s :: s in Rewrite(names, text, i, buf) && s.kind == Emote
              ==> s.text in names && s.emote == EmoteAt(names[s.text])
    decreases |text| - i
  {
    if i < |text| {
      if text[i] == ' ' {
        RewriteRefs(names, text, i + 1, buf + " ");
      } else {
        var e := WordEnd(text, i);
        RewriteRefs(names, text, e, if text[i..e] in names then "" else buf + text[i..e]);
      }
    }
  }

  // ---- the stage ----

  ghost function EmoteOne(names: EmoteSet, s: Segment): seq<Segment> {
    if s.kind == Text && Contains(names, s.text) then Rewrite(names, s.text, 0, "") else [s]
  }

  ghost function Emoter(names: EmoteSet): Segment -> seq<Segment> {
    s => EmoteOne(names, s)
  }

  method Pieces(seg: Segment, names: EmoteSet) returns (pieces: seq<Segment>, did: bool)
    ensures EmoteOne(names, seg) == if did then pieces else [seg]
  {
    if seg.kind == Text {
      pieces, did := ApplyEmotes(seg.text, names);
    } else {
      pieces, did := [], false;
    }
  }

  // ---- the rewrite, stated outright ----

  /** A piece is plain text, or a word of the set with the emote the set gives it. */
  predicate IsPiece(s: Segment, names: EmoteSet) {
    && s.cheerBits == 0 && s.original == ""
    && (if s.kind == Emote then s.text in names && s.emote == EmoteAt(names[s.text])
        else s.kind == Text && s.text != "" && s.emote == NoEmote)
  }

  /**
    What the stage makes of one segment: other kinds, and text without a whole word of the set, stay
    as they are; any other text becomes pieces that concatenate to it, with one emote piece for each
    of those words and no other.
   */
  ghost predicate Emoted(s: Segment, pieces: seq<Segment>, names: EmoteSet) {
    if s.kind != Text || (forall a, b :: !EmoteWord(names, s.text, a, b)) then pieces == [s]
    else
      && (forall x :: x in pieces ==> IsPiece(x, names)) && PlainText(pieces) == s.text
      && (forall a, b :: ShownAt(pieces, a, b) <==> EmoteWord(names, s.text, a, b))
  }

  lemma {:induction false} RewritePieces(names: EmoteSet, text: string, i: nat, buf: string)
    requires i <= |text|
    ensures forall x :: x in Rewrite(names, text, i, buf) ==> IsPiece(x, names)
    decreases |text| - i
  {
    if i < |text| {
      if text[i] == ' ' {
        RewritePieces(names, text, i + 1, buf + " ");
      } else {
        var e := WordEnd(text, i);
        RewritePieces(names, text, e, if text[i..e] in names then "" else buf + text[i..e]);
      }
    }
  }

  lemma EmoteOneIs(names: EmoteSet, s: Segment)
    ensures Emoted(s, EmoteOne(names, s), names)
  {
    if s.kind == Text && Contains(names, s.text) {
      RewritePieces(names, s.text, 0, "");
      EmoteOneText(names, s);
      forall a, b ensures ShownAt(EmoteOne(names, s), a, b) <==> EmoteWord(names, s.text, a, b) {
        EmotesAreWholeWords(names, s, a, b);
      }
    }
  }

  /** Every segment of `before` is rewritten, in order, and `after` is the pieces. */
  ghost predicate AllEmoted(before: seq<Segment>, after: seq<Segment>, names: EmoteSet)
    decreases |before|
  {
    if before == [] then after == []
    else exists k :: 0 <= k <= |after| && Emoted(before[0], after[..k], names) && AllEmoted(before[1..], after[k..], names)
  }

  lemma {:induction false} EmotingRewrites(names: EmoteSet, segs: seq<Segment>)
    ensures AllEmoted(segs, FlatMap(segs, Emoter(names)), names)
  {
    if segs != [] {
      var head, rest := EmoteOne(names, segs[0]), FlatMap(segs[1..], Emoter(names));
      EmoteOneIs(names, segs[0]);
      EmotingRewrites(names, segs[1..]);
      assert (head + rest)[..|head|] == head && (head + rest)[|head|..] == rest;
    }
  }

  lemma NoNames(names: EmoteSet, segs: seq<Segment>)
    requires |names| == 0
    ensures FlatMap(segs, Emoter(names)) == segs
  {
    assert names == map[];
    FlatMapSame(segs, Emoter(names));
  }

  /** The lazy rebuild: `out` is allocated, with everything seen so far, only once a segment changes. */
  method Rebuild(segs: seq<Segment>, names: EmoteSet) returns (out: seq<Segment>, changed: bool)
    ensures FlatMap(segs, Emoter(names)) == if changed then out else segs
    ensures AllEmoted(segs, if changed then out else segs, names)
  {
    EmotingRewrites(names, segs);
    out, changed := [], false;
    for i := 0 to |segs|
      invariant FlatMap(segs[..i], Emoter(names)) == if changed then out else segs[..i]
    {
      assert segs[..i + 1] == segs[..i] + [segs[i]];
      FlatMapSnoc(segs[..i], segs[i], Emoter(names));
      var pieces, did := Pieces(segs[i], names);
      if did {
        if !changed {
          out := segs[..i];
          changed := true;
        }
        out := out + pieces;
      } else if changed {
        out := out + [segs[i]];
      }
    }
    assert segs[..|segs|] == segs;
  }

  /** The stage is the plain rewrite of every segment. */
  method Annotate(msg: MaskStage.Message, names: EmoteSet)
    modifies msg`segments
    ensures msg.segments == FlatMap(old(msg.segments), Emoter(names))
    ensures AllEmoted(old(msg.segments), msg.segments, names)
  {
    EmotingRewrites(names, msg.segments);
    if |names| == 0 {
      NoNames(names, msg.segments);
      return;
    }
    var out, changed := Rebuild(msg.segments, names);
    if changed {
      msg.segments := out;
    }
  }

  lemma EmoteOneText(names: EmoteSet, s: Segment)
    ensures PlainText(EmoteOne(names, s)) == s.text && Reading(EmoteOne(names, s)) == Original(s)
  {
    OneText(s);
    RewriteText(names, s.text, 0, "");
  }

  /** The plain text of a message never changes, and neither does its reading. */
  lemma EmotesKeepText(names: EmoteSet, segs: seq<Segment>)
    ensures PlainText(FlatMap(segs, Emoter(names))) == PlainText(segs)
    ensures Reading(FlatMap(segs, Emoter(names))) == Reading(segs)
  {
    forall s | s in segs ensures PlainText(Emoter(names)(s)) == s.text && Reading(Emoter(names)(s)) == Original(s) {
      EmoteOneText(names, s);
    }
    FlatMapPlainText(segs, Emoter(names));
    FlatMapReading(segs, Emoter(names));
  }

  /** After any ruleset of masks and then emotes, the reading is still what the author wrote. */
  lemma MaskThenEmotes(lang: Filter.Lang, rules: seq<MaskStage.Rule>, names: EmoteSet, segs: seq<Segment>)
    ensures Reading(FlatMap(MaskStage.AppliedAll(lang, segs, rules), Emoter(names))) == Reading(segs)
  {
    EmotesKeepText(names, MaskStage.AppliedAll(lang, segs, rules));
    MaskStage.RulesetConserves(lang, segs, rules);
  }

  /**
    In a text segment the emote segments are exactly the whole words of the set: each word is shown
    by one emote segment of its own, there are no others, and each carries its word's emote.
   */
  lemma EmotesAreWholeWords(names: EmoteSet, s: Segment, a: int, b: int)
    requires s.kind == Text
    ensures ShownAt(EmoteOne(names, s), a, b) <==> EmoteWord(names, s.text, a, b)
    ensures forall x :: x in EmoteOne(names, s) && x.kind == Emote ==> x.text in names && x.emote == EmoteAt(names[x.text])
  {
    RewriteRefs(names, s.text, 0, "");
    RewriteShows(names, s.text, 0, "", a, b);
  }

  /** Byte by byte: in an emote segment iff in a whole word of the set. */
  lemma EmoteBytes(names: EmoteSet, s: Segment)
    requires s.kind == Text
    ensures Marks(EmoteOne(names, s)) == MarkBy(names, s.text, 0, |s.text|)
  {
    if Contains(names, s.text) {
      RewriteMarks(names, s.text, 0, "");
      assert MarkText("", false) + MarkBy(names, s.text, 0, |s.text|) == MarkBy(names, s.text, 0, |s.text|);
    } else {
      OneMark(s);
      assert forall k :: !InEmoteWord(names, s.text, k);
      assert MarkText(s.text, false) == MarkBy(names, s.text, 0, |s.text|);
    }
  }

  lemma EmoteOneAgain(names: EmoteSet, s: Segment)
    ensures FlatMap(EmoteOne(names, s), Emoter(names)) == EmoteOne(names, s)
  {
    if s.kind == Text && Contains(names, s.text) {
      assert !Contains(names, "");
      RewriteSettles(names, s.text, 0, "");
    }
    forall x | x in EmoteOne(names, s) ensures Emoter(names)(x) == [x] {
    }
    FlatMapSame(EmoteOne(names, s), Emoter(names));
  }

  /** A second pass changes nothing. */
  lemma SecondPassIsIdle(names: EmoteSet, segs: seq<Segment>)
    ensures FlatMap(FlatMap(segs, Emoter(names)), Emoter(names)) == FlatMap(segs, Emoter(names))
  {
    forall s | s in segs ensures FlatMap(Emoter(names)(s), Emoter(names)) == Emoter(names)(s) {
      EmoteOneAgain(names, s);
    }
    FlatMapFuses(segs, Emoter(names), Emoter(names), Emoter(names));
  }
}
