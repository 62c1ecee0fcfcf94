/**
  Ingest (internal/engine/engine.go): every message gets an id, the logging flag's
  stamp and perhaps the first-time mark; one with a platform id is recorded under its
  channel and that id, and a deletion looks the id up.
 */
module Engine {
  import opened IdMap
  import opened Ring

  const CAPACITY := 8192
  const SEEN_CAP := 100_000

  datatype ChannelRef = ChannelRef(platform: string, slug: string)

  function Lower(s: string): (r: string)
    ensures |r| == |s|
    ensures forall i :: 0 <= i < |s| ==> (r[i] == '|' <==> s[i] == '|')
  {
    seq(|s|, i requires 0 <= i < |s| => if 'A' <= s[i] <= 'Z' then (s[i] as int + 32) as char else s[i])
  }

  /** `ChannelRef.Key`: "platform:slug" with the slug lower-cased. */
  function ChannelKey(ch: ChannelRef): string {
    ch.platform + ":" + Lower(ch.slug)
  }

  function IdKey(ch: ChannelRef, platformId: string): (k: string)
    ensures k != ""
  {
    ChannelKey(ch) + "|" + platformId
  }

  datatype Event =
    | Message(ch: ChannelRef, platformId: string, id: string,
              chat: bool, authorId: string, login: string, ephemeral: bool, firstTime: bool)
    | Deleted(ch: ChannelRef, platformId: string, messageId: string)
    | Other

  /** A fresh id is used only when the adapter gave none. */
  function Identified(ev: Event, minted: string): Event {
    if ev.Message? && ev.id == "" then ev.(id := minted) else ev
  }

  function Author(ev: Event): string
    requires ev.Message?
  {
    if ev.authorId != "" then ev.authorId else ev.login
  }

  /** A message the session set is asked about: untagged chat with a known author. */
  predicate Asked(ev: Event) {
    ev.Message? && ev.chat && !ev.firstTime && Author(ev) != ""
  }

  function SeenIn(seen: map<string, set<string>>, key: string): set<string> {
    if key in seen then seen[key] else {}
  }

  /** The author is new to the channel's session set, and there is room. */
  predicate IsFirst(seen: map<string, set<string>>, ev: Event) {
    Asked(ev) && Author(ev) !in SeenIn(seen, ChannelKey(ev.ch)) && |SeenIn(seen, ChannelKey(ev.ch))| < SEEN_CAP
  }

  function SeenAfter(seen: map<string, set<string>>, ev: Event): map<string, set<string>> {
    if !Asked(ev) then seen
    else
      var key := ChannelKey(ev.ch);
      seen[key := SeenIn(seen, key) + if IsFirst(seen, ev) then {Author(ev)} else {}]
  }

  class Ingester {
    const ids: IDMap
    var logging: bool
    var seen: map<string, set<string>>

    constructor ()
      ensures fresh(ids) && fresh(ids.ring) && ids.Valid() && ids.Abs() == Empty(CAPACITY)
      ensures !logging && seen == map[]
    {
      ids := new IDMap(CAPACITY);
      logging, seen := false, map[];
    }

    method SetLogging(enabled: bool)
      modifies this`logging
      ensures logging == enabled
    {
      logging := enabled;
    }

    /** `markFirstTime`: whether the engine sets the flag. */
    method MarkFirstTime(ev: Event) returns (first: bool)
      requires ev.Message?
      modifies this`seen
      ensures first == IsFirst(old(seen), ev) && seen == SeenAfter(old(seen), ev)
      ensures var author := if ev.authorId != "" then ev.authorId else ev.login;
              var key := ChannelKey(ev.ch);
              var known := if key in old(seen) then old(seen)[key] else {};
              && (first <==> ev.chat && !ev.firstTime && author != "" && author !in known && |known| < 100_000)
              && (first ==> seen == old(seen)[key := known + {author}])
              && (!first ==> forall k :: k in seen ==> seen[k] == if k in old(seen) then old(seen)[k] else {})
    {
      if !ev.chat || ev.firstTime {
        return false;
      }
      var author := ev.authorId;
      if author == "" {
        author := ev.login;
      }
      if author == "" {
        return false;
      }
      var key := ChannelKey(ev.ch);
      var known := SeenIn(seen, key);
      first := author !in known && |known| < SEEN_CAP;
      if first {
        known := known + {author};
      }
      seen := seen[key := known];
    }

    /** The ingest transforms; `minted` is what the generator would mint. */
    method Ingest(ev: Event, minted: string) returns (out: Event)
      requires ids.Valid()
      modifies ids, ids.ring, this`seen
      ensures ids.Valid()
      ensures ids.Abs() == Ingested(old(ids.Abs()), ev, minted).0
      ensures seen == SeenAfter(old(seen), ev)
      ensures ev.Message? ==>
                && out.Message? && out.id == (if ev.id != "" then ev.id else minted) && out.ephemeral == !logging
                && out == ev.(id := out.id, ephemeral := out.ephemeral, firstTime := out.firstTime)
                && (ev.platformId != "" ==>
                      var key := ev.ch.platform + ":" + Lower(ev.ch.slug) + "|" + ev.platformId;
                      key in ids.m && ids.m[key] == out.id)
      ensures ev.Deleted? ==>
                var key := ev.ch.platform + ":" + Lower(ev.ch.slug) + "|" + ev.platformId;
                out == if ev.platformId == "" then ev
                       else ev.(messageId := if key in old(ids.m) then old(ids.m)[key] else "")
      ensures ev.Other? ==> out == ev
      ensures out == var e := Ingested(old(ids.Abs()), ev, minted).1;
                     if e.Message? then e.(ephemeral := !logging, firstTime := e.firstTime || IsFirst(old(seen), ev)) else e
    {
      out := ev;
      match ev
      case Message(ch, platformId, id, _, _, _, _, _) =>
        if id == "" {
          out := out.(id := minted);
        }
        if platformId != "" {
          ids.PutKey(IdKey(ch, platformId), out.id);
        }
        out := out.(ephemeral := !logging);
        var first := MarkFirstTime(ev);
        if first {
          out := out.(firstTime := true);
        }
      case Deleted(ch, platformId, _) =>
        if platformId != "" {
          var resolved := ids.GetKey(IdKey(ch, platformId));
          out := Deleted(ch, platformId, resolved);
        }
      case Other =>
    }
  }

  /** The id table and the event's ids after `ingest`. */
  function Ingested(t: Table, ev: Event, minted: string): (Table, Event)
    requires t.Shaped()
  {
    var e := Identified(ev, minted);
    match e
    case Message(ch, p, id, _, _, _, _, _) => (if p != "" then Put(t, IdKey(ch, p), id) else t, e)
    case Deleted(ch, p, _) => (t, if p != "" then e.(messageId := Get(t, IdKey(ch, p))) else e)
    case Other => (t, e)
  }

  // ---- keys ----

  /** Equal but for the case of ASCII letters. */
  ghost predicate SameButCase(a: string, b: string) {
    && |a| == |b|
    && forall i :: 0 <= i < |a| ==>
         a[i] == b[i] || ('A' <= a[i] <= 'Z' && b[i] as int == a[i] as int + 32) || ('A' <= b[i] <= 'Z' && a[i] as int == b[i] as int + 32)
  }

  /** Channel keys tell slugs apart by everything but case. */
  lemma LowerFoldsCase(a: string, b: string)
    ensures Lower(a) == Lower(b) <==> SameButCase(a, b)
  {
    if Lower(a) == Lower(b) {
      forall i | 0 <= i < |a|
        ensures a[i] == b[i] || ('A' <= a[i] <= 'Z' && b[i] as int == a[i] as int + 32)
                || ('A' <= b[i] <= 'Z' && a[i] as int == b[i] as int + 32)
      {
        assert Lower(a)[i] == Lower(b)[i];
      }
    }
  }

  /** `a`, a bar, and `p` can be read apart again when `a` has no bar of its own. */
  lemma BarSplits(a: string, p: string, b: string, q: string)
    requires '|' !in a && '|' !in b && a + "|" + p == b + "|" + q
    ensures a == b && p == q
  {
    SplitCases(a, p, b, q);
    forall x ensures !Continues(a, p, b, q, x) && !Continues(b, q, a, p, x) {
      BarInLonger(a, p, b, q, x);
      BarInLonger(b, q, a, p, x);
    }
  }

  lemma BarInLonger(a: string, p: string, b: string, q: string, x: string)
    ensures Continues(a, p, b, q, x) ==> '|' in b
  {
    if Continues(a, p, b, q, x) {
      assert b[|a|] == '|';
    }
  }

  /**
    Exactly when two different (channel, platform id) pairs share a key: one channel
    key continues the other with a bar, and the platform ids make up the difference.
   */
  lemma CollisionIff(c: ChannelRef, p: string, d: ChannelRef, q: string)
    ensures IdKey(c, p) == IdKey(d, q) <==>
            || (ChannelKey(c) == ChannelKey(d) && p == q)
            || (exists x :: Continues(ChannelKey(c), p, ChannelKey(d), q, x))
            || (exists x :: Continues(ChannelKey(d), q, ChannelKey(c), p, x))
  {
    var a, b := ChannelKey(c), ChannelKey(d);
    if IdKey(c, p) == IdKey(d, q) {
      SplitCases(a, p, b, q);
    }
    forall x | Continues(a, p, b, q, x) ensures IdKey(c, p) == IdKey(d, q) {
      assert a + "|" + (x + "|" + q) == a + "|" + x + "|" + q;
    }
    forall x | Continues(b, q, a, p, x) ensures IdKey(c, p) == IdKey(d, q) {
      assert b + "|" + (x + "|" + p) == b + "|" + x + "|" + p;
    }
  }

  ghost predicate Continues(a: string, p: string, b: string, q: string, x: string) {
    b == a + "|" + x && p == x + "|" + q
  }

  lemma SplitCases(a: string, p: string, b: string, q: string)
    requires a + "|" + p == b + "|" + q
    ensures || (a == b && p == q)
            || (exists x :: Continues(a, p, b, q, x))
            || (exists x :: Continues(b, q, a, p, x))
  {
    var s := a + "|" + p;
    if |a| == |b| {
      assert a == s[..|a|] && b == s[..|b|] && p == s[|a| + 1..] && q == s[|b| + 1..];
    } else if |a| < |b| {
      ShorterFirst(a, p, b, q);
    } else {
      ShorterFirst(b, q, a, p);
    }
  }

  lemma ShorterFirst(a: string, p: string, b: string, q: string)
    requires a + "|" + p == b + "|" + q && |a| < |b|
    ensures Continues(a, p, b, q, b[|a| + 1..])
  {
    var s := a + "|" + p;
    assert s[..|b|] == b && s[|b|] == '|' && s[|b| + 1..] == q;
    assert b == s[..|a|] + [s[|a|]] + s[|a| + 1..|b|];
    assert p == s[|a| + 1..|b|] + [s[|b|]] + s[|b| + 1..];
    assert b[|a| + 1..] == s[|a| + 1..|b|];
  }

  // ---- deletions over whole runs ----

  /** An event reaching `ingest`, with the id the generator would mint for it. */
  datatype Arrival = Arrival(ev: Event, minted: string) {
    function Out(): Event {
      Identified(ev, minted)
    }

    predicate Recorded() {
      ev.Message? && ev.platformId != ""
    }

    /** What the map is told, for a message that has a platform id. */
    function Record(): IdMap.Record
      requires Recorded()
    {
      IdMap.Record(IdKey(ev.ch, ev.platformId), Out().id)
    }
  }

  ghost function History(run: seq<Arrival>): (h: seq<Record>)
    ensures Keyed(h)
    ensures forall r :: r in h ==> exists i :: 0 <= i < |run| && run[i].Recorded() && r == run[i].Record()
  {
    if run == [] then []
    else
      var last := run[|run| - 1];
      History(run[..|run| - 1]) + if last.Recorded() then [last.Record()] else []
  }

  /** The id map after a run of messages, deletions and other events. */
  ghost function After(run: seq<Arrival>): (t: Table)
    ensures t.Shaped()
  {
    if run == [] then Empty(CAPACITY)
    else Ingested(After(run[..|run| - 1]), run[|run| - 1].ev, run[|run| - 1].minted).0
  }

  lemma {:induction false} AfterIsPutAll(run: seq<Arrival>)
    ensures After(run) == PutAll(Empty(CAPACITY), History(run))
  {
    if run != [] {
      var init, last := run[..|run| - 1], run[|run| - 1];
      AfterIsPutAll(init);
      var h := History(run);
      if last.Recorded() {
        assert h[..|h| - 1] == History(init) && h[|h| - 1] == last.Record();
      } else {
        assert h == History(init);
      }
    }
  }

  lemma {:induction false} LatestIsPut(h: seq<Record>, key: string)
    requires exists r :: r in h && r.key == key
    ensures Record(key, Latest(h, key)) in h
  {
    var last := h[|h| - 1];
    if last.key == key {
      assert last == Record(key, last.ulid);
    } else {
      var r :| r in h && r.key == key;
      var i :| 0 <= i < |h| && h[i] == r;
      assert h[..|h| - 1][i] == r;
      LatestIsPut(h[..|h| - 1], key);
    }
  }

  lemma {:induction false} InsertsAreKeys(cap: nat, h: seq<Record>, key: string)
    requires key in Inserts(cap, h)
    ensures exists r :: r in h && r.key == key
  {
    var init, last := h[..|h| - 1], h[|h| - 1];
    if key in Inserts(cap, init) {
      InsertsAreKeys(cap, init, key);
      var r :| r in init && r.key == key;
      assert r in h;
    } else {
      assert last in h && last.key == key;
    }
  }

  /** No bar in the platform name or the slug. */
  ghost predicate Barless(ch: ChannelRef) {
    '|' !in ch.platform && '|' !in ch.slug
  }

  lemma BarlessKey(ch: ChannelRef)
    requires Barless(ch)
    ensures '|' !in ChannelKey(ch)
  {
    var k := ChannelKey(ch);
    forall i | 0 <= i < |k| ensures k[i] != '|' {
      if i > |ch.platform| {
        assert k[i] == Lower(ch.slug)[i - |ch.platform| - 1];
      }
    }
  }

  /** What a deletion arriving after `run` is given as its message id. */
  ghost function Resolved(run: seq<Arrival>, ch: ChannelRef, platformId: string): string {
    Ingested(After(run), Deleted(ch, platformId, ""), "").1.messageId
  }

  /**
    After any run of events, a deletion resolves to nothing or to the id of a
    message of the same channel and the same platform id; it never names another
    message, as long as no slug or platform contains a bar.
   */
  lemma DeletionNamesItsOwnMessage(run: seq<Arrival>, ch: ChannelRef, platformId: string)
    requires forall i :: 0 <= i < |run| && run[i].ev.Message? ==> Barless(run[i].ev.ch)
    requires Barless(ch) && platformId != ""
    ensures Resolved(run, ch, platformId) == "" || exists i ::
              && 0 <= i < |run| && run[i].ev.Message?
              && ChannelKey(run[i].ev.ch) == ChannelKey(ch) && run[i].ev.platformId == platformId
              && run[i].Out().id == Resolved(run, ch, platformId)
  {
    var h, t := History(run), After(run);
    var key := IdKey(ch, platformId);
    AfterIsPutAll(run);
    GetFindsTheLatest(CAPACITY, h, key);
    var ins := Inserts(|t.ring|, h);
    if key in Newest(ins, |t.ring|) {
      assert key in ins;
      InsertsAreKeys(|t.ring|, h, key);
      LatestIsPut(h, key);
      var r := Record(key, Latest(h, key));
      var i :| 0 <= i < |run| && run[i].Recorded() && r == run[i].Record();
      BarlessKey(ch);
      BarlessKey(run[i].ev.ch);
      BarSplits(ChannelKey(run[i].ev.ch), run[i].ev.platformId, ChannelKey(ch), platformId);
    }
  }

  lemma {:induction false} LatestOfRun(run: seq<Arrival>, i: nat, key: string)
    requires i < |run| && run[i].Recorded() && run[i].Record().key == key
    requires forall j :: i < j < |run| && run[j].Recorded() ==> run[j].Record().key != key
    ensures Latest(History(run), key) == run[i].Record().ulid
    decreases |run|
  {
    var init, last := run[..|run| - 1], run[|run| - 1];
    var h := History(run);
    if last.Recorded() {
      assert h[..|h| - 1] == History(init) && h[|h| - 1] == last.Record();
    } else {
      assert h == History(init);
    }
    if i < |run| - 1 {
      LatestOfRun(init, i, key);
    }
  }

  /**
    After any run, a deletion of a message whose channel and platform id are still among the last
    8192 slot-consuming insertions resolves to exactly the id the newest such message left with: the
    adapter's, or the one minted for it.
   */
  lemma DeletionFindsTheNewest(run: seq<Arrival>, i: nat, ch: ChannelRef, platformId: string)
    requires i < |run| && platformId != "" && run[i].ev.Message? && run[i].ev.platformId == platformId
    requires ChannelKey(run[i].ev.ch) == ChannelKey(ch)
    requires forall j :: i < j < |run| && run[j].Recorded() ==> IdKey(run[j].ev.ch, run[j].ev.platformId) != IdKey(ch, platformId)
    requires IdKey(ch, platformId) in Newest(Inserts(8192, History(run)), 8192)
    ensures Resolved(run, ch, platformId) == if run[i].ev.id != "" then run[i].ev.id else run[i].minted
  {
    AfterIsPutAll(run);
    GetFindsTheLatest(CAPACITY, History(run), IdKey(ch, platformId));
    LatestOfRun(run, i, IdKey(ch, platformId));
  }

  /** With a bar in a slug it can: here a deletion in "x:a" resolves to a message of "x:a|b". */
  lemma BarInSlugConfusesDeletion()
    ensures var other := Arrival(Message(ChannelRef("x", "a|b"), "c", "ULID", true, "", "", false, false), "");
            && ChannelKey(ChannelRef("x", "a")) != ChannelKey(other.ev.ch)
            && Resolved([other], ChannelRef("x", "a"), "b|c") == "ULID"
  {
    var other := Arrival(Message(ChannelRef("x", "a|b"), "c", "ULID", true, "", "", false, false), "");
    assert Lower("a|b") == "a|b" && Lower("a") == "a";
    assert IdKey(other.ev.ch, "c") == IdKey(ChannelRef("x", "a"), "b|c");
    assert [other][..0] == [];
  }

  // ---- first-time chatters over whole runs ----

  ghost function SeenRun(evs: seq<Event>): map<string, set<string>> {
    if evs == [] then map[] else SeenAfter(SeenRun(evs[..|evs| - 1]), evs[|evs| - 1])
  }

  /** The authors of a channel the session set has been asked about. */
  ghost function AskedIn(evs: seq<Event>, key: string): set<string> {
    set ev | ev in evs && Asked(ev) && ChannelKey(ev.ch) == key :: Author(ev)
  }

  lemma AskedSnoc(evs: seq<Event>, ev: Event, key: string)
    ensures AskedIn(evs + [ev], key)
            == AskedIn(evs, key) + if Asked(ev) && ChannelKey(ev.ch) == key then {Author(ev)} else {}
  {
    assert ev in evs + [ev];
    assert forall e :: e in evs ==> e in evs + [ev];
  }

  /** The session set holds only authors asked about, never more than its cap, and all of them until it is full. */
  lemma {:induction false} SeenIsAsked(evs: seq<Event>, key: string)
    ensures var known := SeenIn(SeenRun(evs), key);
            && known <= AskedIn(evs, key) && |known| <= SEEN_CAP
            && (|known| < SEEN_CAP ==> known == AskedIn(evs, key))
  {
    if evs != [] {
      var init, ev := evs[..|evs| - 1], evs[|evs| - 1];
      assert evs == init + [ev];
      SeenIsAsked(init, key);
      AskedSnoc(init, ev, key);
      if Asked(ev) && ChannelKey(ev.ch) == key {
        SeenStep(SeenRun(init), ev, AskedIn(init, key));
      }
    }
  }

  lemma SeenStep(seen: map<string, set<string>>, ev: Event, asked: set<string>)
    requires Asked(ev)
    requires var known := SeenIn(seen, ChannelKey(ev.ch));
             known <= asked && |known| <= SEEN_CAP && (|known| < SEEN_CAP ==> known == asked)
    ensures var known := SeenIn(SeenAfter(seen, ev), ChannelKey(ev.ch));
            && known <= asked + {Author(ev)} && |known| <= SEEN_CAP
            && (|known| < SEEN_CAP ==> known == asked + {Author(ev)})
  {
    var known, after := SeenIn(seen, ChannelKey(ev.ch)), SeenIn(SeenAfter(seen, ev), ChannelKey(ev.ch));
    if IsFirst(seen, ev) {
      assert after == known + {Author(ev)} && |after| == |known| + 1;
    } else {
      assert after == known;
    }
  }

  /**
    Over any run, until a channel's session set is full, the engine marks exactly the first untagged
    chat message of each author there.
   */
  lemma MarksFirstUntagged(evs: seq<Event>, ev: Event)
    requires Asked(ev) && |SeenIn(SeenRun(evs), ChannelKey(ev.ch))| < SEEN_CAP
    ensures IsFirst(SeenRun(evs), ev)
            <==> forall e :: e in evs && Asked(e) && ChannelKey(e.ch) == ChannelKey(ev.ch) ==> Author(e) != Author(ev)
  {
    SeenIsAsked(evs, ChannelKey(ev.ch));
  }

  /** An earlier chat message of the same author in the same channel, tagged or not. */
  ghost predicate SpokeBefore(evs: seq<Event>, ev: Event, tagged: bool)
    requires ev.Message?
  {
    exists e :: e in evs && e.Message? && e.chat && e.firstTime == tagged
                && ChannelKey(e.ch) == ChannelKey(ev.ch) && Author(e) == Author(ev)
  }

  /**
    With room for the channel's authors, the mark on an untagged chat message says truly whether it
    is its author's first, if and only if it is not the case that the author's earlier messages
    were tagged ones only.
   */
  lemma MarkIsTrueIff(evs: seq<Event>, ev: Event)
    requires Asked(ev) && |AskedIn(evs, ChannelKey(ev.ch))| < SEEN_CAP
    ensures (IsFirst(SeenRun(evs), ev) <==> !SpokeBefore(evs, ev, true) && !SpokeBefore(evs, ev, false))
            <==> !(SpokeBefore(evs, ev, true) && !SpokeBefore(evs, ev, false))
  {
    var known, asked := SeenIn(SeenRun(evs), ChannelKey(ev.ch)), AskedIn(evs, ChannelKey(ev.ch));
    SeenIsAsked(evs, ChannelKey(ev.ch));
    SubsetSize(known, asked);
    assert Author(ev) in asked <==> SpokeBefore(evs, ev, false);
  }

  lemma SubsetSize(a: set<string>, b: set<string>)
    requires a <= b
    ensures |a| <= |b|
  {
    assert b == a + (b - a);
  }

  /** A full set marks nobody, so no author is ever claimed twice. */
  lemma MarkedOnce(evs: seq<Event>, ev: Event)
    requires IsFirst(SeenRun(evs), ev)
    ensures forall e :: e in evs && Asked(e) && ChannelKey(e.ch) == ChannelKey(ev.ch) ==> Author(e) != Author(ev)
    ensures forall e :: Asked(e) && ChannelKey(e.ch) == ChannelKey(ev.ch) && Author(e) == Author(ev)
              ==> !IsFirst(SeenRun(evs + [ev]), e)
  {
    SeenIsAsked(evs, ChannelKey(ev.ch));
    assert (evs + [ev])[..|evs|] == evs;
  }

  /** An author whose first message the platform tagged is not recorded, so the second is marked as well. */
  lemma TaggedChatterIsMarkedAgain(ch: ChannelRef, author: string)
    requires author != ""
    ensures var tagged := Message(ch, "", "", true, author, "", false, true);
            IsFirst(SeenRun([tagged]), tagged.(firstTime := false))
  {
    var tagged := Message(ch, "", "", true, author, "", false, true);
    assert [tagged][..0] == [];
    assert SeenRun([tagged]) == SeenAfter(SeenRun([]), tagged);
  }
}
