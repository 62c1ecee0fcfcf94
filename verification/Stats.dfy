/**
  Channel statistics (internal/stats/stats.go): sixty one-second buckets, reused
  in place, from which every snapshot must agree with a recount of the event log
  over the last sixty seconds.
 */
module Stats {
  import opened Windows
  import opened Sorting

  /** A bucket's author set is nil until the bucket is first reset. */
  datatype Authors = Nil | Names(names: set<string>)

  datatype Bucket = Bucket(sec: nat, count: nat, authors: Authors, emotes: map<string, nat>)

  /** One chat message as the ring sees it. */
  datatype Event = Event(sec: nat, author: string, emotes: seq<string>)

  datatype EmoteCount = EmoteCount(name: string, count: nat)

  datatype Snapshot = Snapshot(messagesPerSec: real, uniqueChatters: nat, topEmotes: seq<EmoteCount>)

  function Blank(): seq<Bucket> {
    seq(60, _ => Bucket(0, 0, Nil, map[]))
  }

  function SlotIndex(s: nat): nat {
    s % 60
  }

  lemma SlotIndexSpreads()
    ensures Spread(SlotIndex, 60)
  {
  }

  /** A missing name counts zero. */
  function Count(m: map<string, nat>, name: string): nat {
    if name in m then m[name] else 0
  }

  function Tally(m: map<string, nat>, names: seq<string>): map<string, nat> {
    if names == [] then m
    else
      var t := Tally(m, names[..|names| - 1]);
      t[names[|names| - 1] := Count(t, names[|names| - 1]) + 1]
  }

  lemma {:induction false} TallyCounts(m: map<string, nat>, names: seq<string>, n: string)
    ensures Count(Tally(m, names), n) == Count(m, n) + multiset(names)[n]
    ensures n in Tally(m, names) <==> n in m || n in names
  {
    if names != [] {
      TallyCounts(m, names[..|names| - 1], n);
      assert names == names[..|names| - 1] + [names[|names| - 1]];
    }
  }

  function WithAuthor(names: set<string>, author: string): set<string> {
    if author != "" then names + {author} else names
  }

  /** The bucket an event finds: its own, or a reset one. */
  function Found(b: Bucket, s: nat): (r: Bucket)
    ensures r.authors.Names? && r.sec == s
  {
    if b.sec != s || b.authors.Nil? then Bucket(s, 0, Names({}), map[]) else b
  }

  function Recorded(bs: seq<Bucket>, h: Event): (r: seq<Bucket>)
    requires |bs| == 60
    ensures |r| == 60
  {
    var i := SlotIndex(h.sec);
    var b := Found(bs[i], h.sec);
    bs[i := Bucket(h.sec, b.count + 1, Names(WithAuthor(b.authors.names, h.author)), Tally(b.emotes, h.emotes))]
  }

  function RecordedAll(log: seq<Event>): (r: seq<Bucket>)
    ensures |r| == 60
  {
    if log == [] then Blank() else Recorded(RecordedAll(log[..|log| - 1]), log[|log| - 1])
  }

  // ---- the log the ring stands for ----

  function SecOf(h: Event): nat {
    h.sec
  }

  function One(h: Event): nat {
    1
  }

  /** How often an event uses emote `n`. */
  function Uses(n: string): Event -> nat {
    (h: Event) => multiset(h.emotes)[n]
  }

  function BucketSlot(b: Bucket): Slot {
    if b.authors.Nil? then Unused else Used(b.sec)
  }

  function Slots(bs: seq<Bucket>): seq<Slot> {
    seq(|bs|, i requires 0 <= i < |bs| => BucketSlot(bs[i]))
  }

  function Totals(bs: seq<Bucket>): seq<nat> {
    seq(|bs|, i requires 0 <= i < |bs| => bs[i].count)
  }

  function EmoteTotals(bs: seq<Bucket>, n: string): seq<nat> {
    seq(|bs|, i requires 0 <= i < |bs| => Count(bs[i].emotes, n))
  }

  function AuthorsAt(log: seq<Event>, s: nat): set<string> {
    set h | h in log && h.sec == s && h.author != "" :: h.author
  }

  /** The distinct nonempty authors of the window. */
  function AuthorsIn(log: seq<Event>, now: nat): set<string> {
    set h | h in log && InWindow(h.sec, now, 60) && h.author != "" :: h.author
  }

  function NamesIn(log: seq<Event>): set<string> {
    set h, n | h in log && n in h.emotes :: n
  }

  /** The emotes used inside the window, with how often. */
  ghost function UsesIn(log: seq<Event>, now: nat): map<string, nat> {
    map n | n in NamesIn(log) && Recount(log, SecOf, Uses(n), now, 60) > 0
      :: Recount(log, SecOf, Uses(n), now, 60)
  }

  ghost predicate BucketOk(b: Bucket, log: seq<Event>) {
    && (b.authors.Names? ==> b.authors.names == AuthorsAt(log, b.sec))
    && (b.authors.Nil? ==> b.count == 0 && b.emotes == map[])
    && Positive(b.emotes)
  }

  ghost predicate Positive(m: map<string, nat>) {
    forall n :: n in m ==> m[n] > 0
  }

  ghost predicate BucketsOk(bs: seq<Bucket>, log: seq<Event>) {
    forall i :: 0 <= i < |bs| ==> BucketOk(bs[i], log)
  }

  ghost predicate EmotesCounted(bs: seq<Bucket>, log: seq<Event>) {
    forall n :: Counts(EmoteTotals(bs, n), Slots(bs), log, SecOf, Uses(n))
  }

  /** The ring holds exactly what the log says of the seconds its slots are at. */
  ghost predicate Refines(bs: seq<Bucket>, log: seq<Event>) {
    && |bs| == 60
    && SlotsOk(Slots(bs), log, SecOf, SlotIndex)
    && Counts(Totals(bs), Slots(bs), log, SecOf, One)
    && EmotesCounted(bs, log)
    && BucketsOk(bs, log)
  }

  ghost predicate Nondecreasing(log: seq<Event>) {
    forall i, j :: 0 <= i < j < |log| ==> log[i].sec <= log[j].sec
  }

  lemma BlankRefines()
    ensures Refines(Blank(), [])
  {
    forall n ensures Counts(EmoteTotals(Blank(), n), Slots(Blank()), [], SecOf, Uses(n)) {
    }
  }

  lemma RecordedBuckets(bs: seq<Bucket>, log: seq<Event>, h: Event)
    requires Refines(bs, log) && UpTo(log, SecOf, h.sec)
    ensures BucketsOk(Recorded(bs, h), log + [h])
  {
    var i := SlotIndex(h.sec);
    var after := Recorded(bs, h);
    forall j | 0 <= j < 60 ensures BucketOk(after[j], log + [h]) {
      assert SlotOk(Slots(bs)[j], j, log, SecOf, SlotIndex);
      assert BucketOk(bs[j], log);
      if j == i {
        RecordedBucket(bs[i], log, h);
      } else {
        assert BucketSlot(bs[j]).Used? ==> bs[j].sec != h.sec;
        assert AuthorsAt(log + [h], bs[j].sec) >= AuthorsAt(log, bs[j].sec);
      }
    }
  }

  lemma RecordedBucket(b: Bucket, log: seq<Event>, h: Event)
    requires BucketOk(b, log) && SlotOk(BucketSlot(b), SlotIndex(h.sec), log, SecOf, SlotIndex) && UpTo(log, SecOf, h.sec)
    ensures var f := Found(b, h.sec);
            BucketOk(Bucket(h.sec, f.count + 1, Names(WithAuthor(f.authors.names, h.author)), Tally(f.emotes, h.emotes)),
                     log + [h])
  {
    var f := Found(b, h.sec);
    assert f.authors.names == AuthorsAt(log, h.sec) by {
      forall g | g in log && f != b ensures g.sec != h.sec {
        assert SecOf(g) == g.sec;
      }
    }
    assert AuthorsAt(log + [h], h.sec) == WithAuthor(AuthorsAt(log, h.sec), h.author);
    forall n | n in Tally(f.emotes, h.emotes) ensures Tally(f.emotes, h.emotes)[n] > 0 {
      TallyCounts(f.emotes, h.emotes, n);
    }
  }

  /** Recording in time order keeps the ring in step with the log. */
  lemma RecordRefines(bs: seq<Bucket>, log: seq<Event>, h: Event)
    requires Refines(bs, log) && UpTo(log, SecOf, h.sec)
    ensures Refines(Recorded(bs, h), log + [h]) && UpTo(log + [h], SecOf, h.sec)
  {
    var i := SlotIndex(h.sec);
    var after := Recorded(bs, h);
    SlotIndexSpreads();
    RecordSlots(Slots(bs), log, h, SecOf, SlotIndex);
    assert Slots(after) == Slots(bs)[i := Used(h.sec)];
    RecordCounts(Slots(bs), Totals(bs), log, h, SecOf, One, SlotIndex);
    assert BucketOk(bs[i], log);
    assert Totals(after) == Totals(bs)[i := Bump(Slots(bs)[i], Totals(bs)[i], h.sec, 1)];
    forall n ensures Counts(EmoteTotals(after, n), Slots(after), log + [h], SecOf, Uses(n)) {
      RecordEmote(bs, log, h, n);
    }
    RecordedBuckets(bs, log, h);
  }

  lemma RecordEmote(bs: seq<Bucket>, log: seq<Event>, h: Event, n: string)
    requires Refines(bs, log) && UpTo(log, SecOf, h.sec)
    ensures Counts(EmoteTotals(Recorded(bs, h), n), Slots(Recorded(bs, h)), log + [h], SecOf, Uses(n))
  {
    var i := SlotIndex(h.sec);
    var after := Recorded(bs, h);
    SlotIndexSpreads();
    assert Slots(after) == Slots(bs)[i := Used(h.sec)];
    RecordCounts(Slots(bs), EmoteTotals(bs, n), log, h, SecOf, Uses(n), SlotIndex);
    assert BucketOk(bs[i], log);
    TallyCounts(Found(bs[i], h.sec).emotes, h.emotes, n);
    assert EmoteTotals(after, n)
        == EmoteTotals(bs, n)[i := Bump(Slots(bs)[i], EmoteTotals(bs, n)[i], h.sec, Uses(n)(h))];
  }

  /** Whatever was recorded in time order, the ring refines the log. */
  lemma {:induction false} RunRefines(log: seq<Event>)
    requires Nondecreasing(log)
    ensures Refines(RecordedAll(log), log)
  {
    if log == [] {
      BlankRefines();
    } else {
      var init, h := log[..|log| - 1], log[|log| - 1];
      RunRefines(init);
      RecordRefines(RecordedAll(init), init, h);
      assert log == init + [h];
    }
  }

  // ---- what a snapshot must say ----

  /** The order of the leaderboard: more uses first, then by name. */
  predicate NameLess(a: string, b: string) {
    b != "" && (a == "" || a[0] < b[0] || (a[0] == b[0] && NameLess(a[1..], b[1..])))
  }

  predicate Outranks(a: EmoteCount, b: EmoteCount) {
    if a.count != b.count then a.count > b.count else NameLess(a.name, b.name)
  }

  lemma {:induction false} NameOrder(a: string, b: string)
    ensures !(NameLess(a, b) && NameLess(b, a))
    ensures a != b <==> NameLess(a, b) || NameLess(b, a)
  {
    if a != "" && b != "" {
      NameOrder(a[1..], b[1..]);
      assert a == [a[0]] + a[1..] && b == [b[0]] + b[1..];
    }
  }

  lemma {:induction false} NameTransitive(a: string, b: string, c: string)
    requires NameLess(a, b) && NameLess(b, c)
    ensures NameLess(a, c)
  {
    if a != "" && a[0] == b[0] && b[0] == c[0] {
      NameTransitive(a[1..], b[1..], c[1..]);
    }
  }

  ghost predicate Ranked(s: seq<EmoteCount>) {
    forall i, j :: 0 <= i < j < |s| ==> Outranks(s[i], s[j])
  }

  /** An entry of the counts. */
  predicate Entry(e: EmoteCount, counts: map<string, nat>) {
    e.name in counts && counts[e.name] == e.count
  }

  /** The `n` best of `counts`: ranked, all entries, and nothing left out that outranks one of them. */
  ghost predicate IsTop(top: seq<EmoteCount>, counts: map<string, nat>, n: nat) {
    && |top| == (if |counts| < n then |counts| else n)
    && Ranked(top)
    && (forall e :: e in top ==> Entry(e, counts))
    && (forall e, x :: e in top && Entry(x, counts) && x !in top ==> Outranks(e, x))
  }

  /** There is only one leaderboard, so the order a map is walked in cannot show. */
  lemma {:induction false} TopIsUnique(a: seq<EmoteCount>, b: seq<EmoteCount>, counts: map<string, nat>, n: nat)
    requires IsTop(a, counts, n) && IsTop(b, counts, n)
    ensures a == b
  {
    TopAgrees(a, b, counts, n, |a|);
  }

  lemma {:induction false} TopAgrees(a: seq<EmoteCount>, b: seq<EmoteCount>, counts: map<string, nat>, n: nat, k: nat)
    requires IsTop(a, counts, n) && IsTop(b, counts, n) && k <= |a|
    ensures |a| == |b| && a[..k] == b[..k]
  {
    if k > 0 {
      TopAgrees(a, b, counts, n, k - 1);
      NotAhead(a, b, counts, n, k - 1);
      NotAhead(b, a, counts, n, k - 1);
      assert Entry(a[k - 1], counts) && Entry(b[k - 1], counts);
      NameOrder(a[k - 1].name, b[k - 1].name);
      assert a[..k] == a[..k - 1] + [a[k - 1]] && b[..k] == b[..k - 1] + [b[k - 1]];
    }
  }

  lemma NotAhead(a: seq<EmoteCount>, b: seq<EmoteCount>, counts: map<string, nat>, n: nat, i: nat)
    requires IsTop(a, counts, n) && IsTop(b, counts, n) && i < |a| && a[..i] == b[..i]
    ensures !Outranks(a[i], b[i])
  {
    NameOrder(a[i].name, b[i].name);
    NameOrder(a[i].name, a[i].name);
    assert Entry(a[i], counts);
    assert b[i] in b;
    assert forall j :: 0 <= j < i ==> a[j] == a[..i][j] == b[..i][j] == b[j];
    if a[i] in b {
      var j :| 0 <= j < |b| && b[j] == a[i];
      assert i < j ==> Outranks(b[i], b[j]);
    }
  }

  ghost predicate IsSnapshot(s: Snapshot, log: seq<Event>, now: nat) {
    && s.messagesPerSec == Recount(log, SecOf, One, now, 60) as real / 60.0
    && s.uniqueChatters == |AuthorsIn(log, now)|
    && IsTop(s.topEmotes, UsesIn(log, now), 5)
  }

  // ---- the leaderboard ----

  lemma RankTransitive(a: EmoteCount, b: EmoteCount, c: EmoteCount)
    requires Outranks(a, b) && Outranks(b, c)
    ensures Outranks(a, c)
  {
    if a.count == b.count == c.count {
      NameTransitive(a.name, b.name, c.name);
    }
  }

  predicate RanksFirst(a: EmoteCount, b: EmoteCount) {
    a == b || Outranks(a, b)
  }

  lemma RankOrders()
    ensures Orders(RanksFirst)
  {
    forall a, b ensures RanksFirst(a, b) || RanksFirst(b, a) {
      NameOrder(a.name, b.name);
    }
    forall a, b, c | RanksFirst(a, b) && RanksFirst(b, c) ensures RanksFirst(a, c) {
      if a != b && b != c {
        RankTransitive(a, b, c);
      }
    }
  }

  ghost predicate DistinctNames(s: seq<EmoteCount>) {
    forall i, j :: 0 <= i < j < |s| ==> s[i].name != s[j].name
  }

  lemma {:induction false} DistinctOnce(s: seq<EmoteCount>, x: EmoteCount)
    requires DistinctNames(s)
    ensures multiset(s)[x] <= 1
  {
    if s != [] {
      assert s == [s[0]] + s[1..];
      DistinctOnce(s[1..], x);
    }
  }

  lemma TwiceInBag(s: seq<EmoteCount>, i: nat, j: nat)
    requires i < j < |s| && s[i] == s[j]
    ensures multiset(s)[s[i]] >= 2
  {
    assert s == s[..j] + s[j..];
    assert s[i] in s[..j] && s[j] in s[j..];
  }

  /** With distinct names the sorted list is strictly ranked. */
  lemma SortRanks(s: seq<EmoteCount>)
    requires DistinctNames(s)
    ensures Ranked(Sort(s, RanksFirst)) && |Sort(s, RanksFirst)| == |s|
    ensures forall e :: e in Sort(s, RanksFirst) <==> e in s
  {
    RankOrders();
    SortSorts(s, RanksFirst);
    var r := Sort(s, RanksFirst);
    forall i, j | 0 <= i < j < |r| ensures Outranks(r[i], r[j]) {
      DistinctOnce(s, r[i]);
      if r[i] == r[j] {
        TwiceInBag(r, i, j);
      }
    }
    forall e ensures e in r <==> e in s {
      SortMembers(s, RanksFirst, e);
    }
  }

  /** The first n of a ranked list of all the entries are the n best. */
  lemma PrefixIsTop(all: seq<EmoteCount>, counts: map<string, nat>, n: nat)
    requires Ranked(all) && |all| == |counts| && forall e :: e in all <==> Entry(e, counts)
    ensures IsTop(if |all| > n then all[..n] else all, counts, n)
  {
    var top := if |all| > n then all[..n] else all;
    assert forall j :: 0 <= j < |top| ==> all[j] in top;
    forall e, x | e in top && Entry(x, counts) && x !in top ensures Outranks(e, x) {
      var i :| 0 <= i < |top| && top[i] == e;
      var j :| 0 <= j < |all| && all[j] == x;
      assert |top| <= j;
      assert Outranks(all[i], all[j]);
    }
  }

  method TopEmotes(counts: map<string, nat>, n: nat) returns (top: seq<EmoteCount>)
    ensures IsTop(top, counts, n)
  {
    var out: seq<EmoteCount> := [];
    if |counts| == 0 {
      assert forall e :: !Entry(e, counts);
      return out;
    }
    var todo := counts.Keys;
    while todo != {}
      invariant todo <= counts.Keys && |out| + |todo| == |counts|
      invariant forall e :: e in out <==> Entry(e, counts) && e.name !in todo
      invariant DistinctNames(out)
      decreases |todo|
    {
      var name :| name in todo;
      out := out + [EmoteCount(name, counts[name])];
      todo := todo - {name};
    }
    SortRanks(out);
    var sorted := Sort(out, RanksFirst);
    PrefixIsTop(sorted, counts, n);
    top := if |sorted| > n then sorted[..n] else sorted;
  }

  // ---- reading the ring ----

  /** The authors of the live buckets among the first `r`. */
  function LiveAuthors(bs: seq<Bucket>, now: nat, r: nat): set<string>
    requires r <= |bs|
  {
    if r == 0 then {}
    else LiveAuthors(bs, now, r - 1) + if Live(BucketSlot(bs[r - 1]), now, 60) then bs[r - 1].authors.names else {}
  }

  lemma {:induction false} LiveAuthorsHas(bs: seq<Bucket>, now: nat, r: nat, a: string)
    requires r <= |bs|
    ensures a in LiveAuthors(bs, now, r)
            <==> exists i :: 0 <= i < r && Live(BucketSlot(bs[i]), now, 60) && a in bs[i].authors.names
  {
    if r > 0 {
      LiveAuthorsHas(bs, now, r - 1, a);
    }
  }

  /** Live buckets hold exactly the window's authors. */
  lemma AuthorsAreRecounted(bs: seq<Bucket>, log: seq<Event>, now: nat)
    requires Refines(bs, log) && UpTo(log, SecOf, now)
    ensures LiveAuthors(bs, now, 60) == AuthorsIn(log, now)
  {
    SlotIndexSpreads();
    forall a ensures a in LiveAuthors(bs, now, 60) <==> a in AuthorsIn(log, now) {
      LiveAuthorsHas(bs, now, 60, a);
      if a in AuthorsIn(log, now) {
        var h :| h in log && InWindow(h.sec, now, 60) && h.author != "" && h.author == a;
        LiveIffInWindow(Slots(bs), log, SecOf, SlotIndex, now, h);
        var i := SlotIndex(h.sec);
        assert Slots(bs)[i] == BucketSlot(bs[i]);
        assert BucketOk(bs[i], log);
        assert a in AuthorsAt(log, h.sec);
      }
      if a in LiveAuthors(bs, now, 60) {
        var i :| 0 <= i < 60 && Live(BucketSlot(bs[i]), now, 60) && a in bs[i].authors.names;
        assert BucketOk(bs[i], log);
        assert a in AuthorsAt(log, bs[i].sec);
      }
    }
  }

  ghost predicate Summed(emotes: map<string, nat>, bs: seq<Bucket>, now: nat, r: nat)
    requires |bs| == 60 && r <= 60
  {
    forall n :: Count(emotes, n) == LiveSum(Slots(bs), EmoteTotals(bs, n), now, 60, r)
  }

  /** Adding two count maps, name by name. */
  function AddCounts(m: map<string, nat>, k: map<string, nat>): map<string, nat> {
    map n | n in m.Keys + k.Keys :: Count(m, n) + Count(k, n)
  }

  lemma AddCountsCounts(m: map<string, nat>, k: map<string, nat>, n: string)
    ensures Count(AddCounts(m, k), n) == Count(m, n) + Count(k, n)
  {
  }

  lemma UsesAreRecounted(bs: seq<Bucket>, log: seq<Event>, now: nat, emotes: map<string, nat>)
    requires Refines(bs, log) && UpTo(log, SecOf, now) && Summed(emotes, bs, now, 60) && Positive(emotes)
    ensures emotes == UsesIn(log, now)
  {
    SlotIndexSpreads();
    forall n ensures Count(emotes, n) == Recount(log, SecOf, Uses(n), now, 60) {
      LiveSumIsRecount(Slots(bs), EmoteTotals(bs, n), log, SecOf, Uses(n), SlotIndex, now);
    }
    forall n ensures n in emotes <==> n in UsesIn(log, now) {
      if n !in NamesIn(log) {
        forall h | h in log ensures Uses(n)(h) == 0 {
          assert n !in h.emotes;
        }
        SumZero(log, Inside(SecOf, Uses(n), now, 60));
      }
      assert n in emotes <==> Count(emotes, n) > 0;
    }
    forall n | n in emotes ensures emotes[n] == UsesIn(log, now)[n] {
      assert Count(emotes, n) == emotes[n];
    }
  }

  lemma TotalIsRecounted(bs: seq<Bucket>, log: seq<Event>, now: nat)
    requires Refines(bs, log) && UpTo(log, SecOf, now)
    ensures LiveSum(Slots(bs), Totals(bs), now, 60, 60) == Recount(log, SecOf, One, now, 60)
  {
    SlotIndexSpreads();
    LiveSumIsRecount(Slots(bs), Totals(bs), log, SecOf, One, SlotIndex, now);
  }

  lemma LiveBucketIff(bs: seq<Bucket>, log: seq<Event>, now: nat)
    requires Refines(bs, log) && UpTo(log, SecOf, now)
    ensures (exists i :: 0 <= i < 60 && Live(BucketSlot(bs[i]), now, 60))
            <==> exists h: Event :: h in log && InWindow(h.sec, now, 60)
  {
    SlotIndexSpreads();
    if i :| 0 <= i < 60 && Live(BucketSlot(bs[i]), now, 60) {
      assert SlotOk(Slots(bs)[i], i, log, SecOf, SlotIndex);
      var h :| h in log && SecOf(h) == bs[i].sec;
      assert InWindow(h.sec, now, 60);
    }
    if h :| h in log && InWindow(h.sec, now, 60) {
      LiveIffInWindow(Slots(bs), log, SecOf, SlotIndex, now, h);
      assert Live(BucketSlot(bs[SlotIndex(h.sec)]), now, 60);
    }
  }

  class ChannelStats {
    const buckets: array<Bucket>

    ghost predicate Valid()
      reads this
    {
      buckets.Length == 60
    }

    constructor ()
      ensures Valid() && fresh(buckets) && buckets[..] == Blank()
    {
      buckets := new Bucket[60](_ => Bucket(0, 0, Nil, map[]));
    }

    method Record(now: nat, author: string, emoteNames: seq<string>)
      requires Valid()
      modifies buckets
      ensures buckets[..] == Recorded(old(buckets[..]), Event(now, author, emoteNames))
    {
      var i := now % 60;
      var b := buckets[i];
      if b.sec != now || b.authors.Nil? {
        b := Bucket(now, 0, Names({}), map[]);
      }
      b := b.(count := b.count + 1);
      if author != "" {
        b := b.(authors := Names(b.authors.names + {author}));
      }
      var emotes := b.emotes;
      ghost var was := emotes;
      var k := 0;
      while k < |emoteNames|
        invariant k <= |emoteNames| && emotes == Tally(was, emoteNames[..k])
      {
        assert emoteNames[..k + 1][..k] == emoteNames[..k];
        emotes := emotes[emoteNames[k] := Count(emotes, emoteNames[k]) + 1];
        k := k + 1;
      }
      buckets[i] := b.(emotes := emotes);
      assert emoteNames[..k] == emoteNames;
    }

    /** Against any log the ring refines, a snapshot is the recount. */
    method TakeSnapshot(now: nat) returns (s: Snapshot)
      requires Valid()
      ensures forall log :: Refines(buckets[..], log) && UpTo(log, SecOf, now) ==> IsSnapshot(s, log, now)
    {
      ghost var bs := buckets[..];
      var total, authors, emotes := 0, {}, map[];
      var i := 0;
      while i < 60
        invariant i <= 60
        invariant total == LiveSum(Slots(bs), Totals(bs), now, 60, i)
        invariant authors == LiveAuthors(bs, now, i)
        invariant Summed(emotes, bs, now, i)
        invariant (forall j :: 0 <= j < 60 ==> Positive(bs[j].emotes)) ==> Positive(emotes)
      {
        var b := buckets[i];
        if !(b.authors.Nil? || now - b.sec >= 60 || b.sec > now) {
          total := total + b.count;
          authors := authors + b.authors.names;
          forall n ensures Count(AddCounts(emotes, b.emotes), n) == Count(emotes, n) + Count(b.emotes, n) {
            AddCountsCounts(emotes, b.emotes, n);
          }
          emotes := AddCounts(emotes, b.emotes);
        }
        i := i + 1;
      }
      var top := TopEmotes(emotes, 5);
      s := Snapshot(total as real / 60.0, |authors|, top);
      forall log | Refines(bs, log) && UpTo(log, SecOf, now) ensures IsSnapshot(s, log, now) {
        TotalIsRecounted(bs, log, now);
        AuthorsAreRecounted(bs, log, now);
        assert forall j :: 0 <= j < 60 ==> BucketOk(bs[j], log);
        UsesAreRecounted(bs, log, now, emotes);
      }
    }

    method Active(now: nat) returns (r: bool)
      requires Valid()
      ensures forall log :: Refines(buckets[..], log) && UpTo(log, SecOf, now)
                ==> (r <==> exists h: Event :: h in log && InWindow(h.sec, now, 60))
    {
      ghost var bs := buckets[..];
      forall log | Refines(bs, log) && UpTo(log, SecOf, now)
        ensures (exists i :: 0 <= i < 60 && Live(BucketSlot(bs[i]), now, 60))
                <==> exists h: Event :: h in log && InWindow(h.sec, now, 60)
      {
        LiveBucketIff(bs, log, now);
      }
      var i := 0;
      while i < 60
        invariant i <= 60
        invariant forall j :: 0 <= j < i ==> !Live(BucketSlot(bs[j]), now, 60)
      {
        var b := buckets[i];
        if b.authors.Names? && now - b.sec < 60 && b.sec <= now {
          assert Live(BucketSlot(bs[i]), now, 60);
          return true;
        }
        i := i + 1;
      }
      return false;
    }
  }
}
