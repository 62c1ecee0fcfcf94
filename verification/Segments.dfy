/** Message content (internal/platform/port.go): ordered segments and the text they carry. */
module Segments {

  datatype Kind = Text | Emote | Mention | Link | Cheer | Masked

  datatype EmoteRef = EmoteRef(provider: string, id: string, name: string, urlTemplate: string, animated: bool)

  /** The emote pointer is set on emote segments only. */
  datatype EmotePointer = NoEmote | EmoteAt(emote: EmoteRef)

  datatype Segment = Segment(kind: Kind, text: string, emote: EmotePointer, cheerBits: int, original: string)

  function TextSegment(text: string): Segment {
    Segment(Text, text, NoEmote, 0, "")
  }

  /** The text forms used for logging, search and speech: every segment's Text. */
  function PlainText(segs: seq<Segment>): string {
    if segs == [] then "" else segs[0].text + PlainText(segs[1..])
  }

  /** What the author wrote: the original behind a mask, Text elsewhere. */
  function Original(s: Segment): string {
    if s.kind == Masked then s.original else s.text
  }

  function Reading(segs: seq<Segment>): string {
    if segs == [] then "" else Original(segs[0]) + Reading(segs[1..])
  }

  method PlainTextOf(segs: seq<Segment>) returns (b: string)
    ensures b == PlainText(segs)
  {
    b := "";
    for i := 0 to |segs|
      invariant b + PlainText(segs[i..]) == PlainText(segs)
    {
      b := b + segs[i].text;
    }
  }

  lemma HeadFirst(a: seq<Segment>, b: seq<Segment>)
    requires a != []
    ensures a == [a[0]] + a[1..] && a + b == [a[0]] + (a[1..] + b)
  {
  }

  lemma Associate(x: string, y: string, z: string)
    ensures (x + y) + z == x + (y + z)
  {
  }

  lemma {:induction false} PlainTextConcat(a: seq<Segment>, b: seq<Segment>)
    ensures PlainText(a + b) == PlainText(a) + PlainText(b)
  {
    if a == [] {
      assert a + b == b;
    } else {
      PlainTextConcat(a[1..], b);
      assert (a + b)[0] == a[0] && (a + b)[1..] == a[1..] + b;
      Associate(a[0].text, PlainText(a[1..]), PlainText(b));
    }
  }

  lemma {:induction false} ReadingConcat(a: seq<Segment>, b: seq<Segment>)
    ensures Reading(a + b) == Reading(a) + Reading(b)
  {
    if a == [] {
      assert a + b == b;
    } else {
      ReadingConcat(a[1..], b);
      assert (a + b)[0] == a[0] && (a + b)[1..] == a[1..] + b;
      Associate(Original(a[0]), Reading(a[1..]), Reading(b));
    }
  }

  /** Replacing every segment by a list of segments. */
  function FlatMap(segs: seq<Segment>, f: Segment -> seq<Segment>): seq<Segment> {
    if segs == [] then [] else f(segs[0]) + FlatMap(segs[1..], f)
  }

  lemma {:induction false} FlatMapConcat(a: seq<Segment>, b: seq<Segment>, f: Segment -> seq<Segment>)
    ensures FlatMap(a + b, f) == FlatMap(a, f) + FlatMap(b, f)
  {
    if a == [] {
      assert a + b == b;
    } else {
      FlatMapConcat(a[1..], b, f);
      assert (a + b)[1..] == a[1..] + b;
    }
  }

  lemma FlatMapSnoc(a: seq<Segment>, s: Segment, f: Segment -> seq<Segment>)
    ensures FlatMap(a + [s], f) == FlatMap(a, f) + f(s)
  {
    FlatMapConcat(a, [s], f);
    assert FlatMap([s], f) == f(s) + FlatMap([], f);
  }

  /** If two passes agree with one on every segment, they agree on every list. */
  lemma {:induction false} FlatMapFuses(segs: seq<Segment>, f: Segment -> seq<Segment>, g: Segment -> seq<Segment>,
                                        h: Segment -> seq<Segment>)
    requires forall s :: s in segs ==> FlatMap(f(s), g) == h(s)
    ensures FlatMap(FlatMap(segs, f), g) == FlatMap(segs, h)
  {
    if segs != [] {
      FlatMapConcat(f(segs[0]), FlatMap(segs[1..], f), g);
      FlatMapFuses(segs[1..], f, g, h);
    }
  }

  /** A rewrite that keeps every segment's reading keeps the whole reading; likewise the plain text. */
  lemma {:induction false} FlatMapReading(segs: seq<Segment>, f: Segment -> seq<Segment>)
    requires forall s :: s in segs ==> Reading(f(s)) == Original(s)
    ensures Reading(FlatMap(segs, f)) == Reading(segs)
  {
    if segs != [] {
      FlatMapReading(segs[1..], f);
      ReadingConcat(f(segs[0]), FlatMap(segs[1..], f));
    }
  }

  lemma {:induction false} FlatMapPlainText(segs: seq<Segment>, f: Segment -> seq<Segment>)
    requires forall s :: s in segs ==> PlainText(f(s)) == s.text
    ensures PlainText(FlatMap(segs, f)) == PlainText(segs)
  {
    if segs != [] {
      FlatMapPlainText(segs[1..], f);
      PlainTextConcat(f(segs[0]), FlatMap(segs[1..], f));
    }
  }

  lemma {:induction false} FlatMapSame(segs: seq<Segment>, f: Segment -> seq<Segment>)
    requires forall s :: s in segs ==> f(s) == [s]
    ensures FlatMap(segs, f) == segs
  {
    if segs != [] {
      FlatMapSame(segs[1..], f);
      assert segs == [segs[0]] + segs[1..];
    }
  }
}
