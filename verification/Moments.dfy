/**
  The spike detector (internal/moments/moments.go).  Messages and ticks reach a
  channel in any interleaving; each side reads the clock before it takes the lock,
  so only the messages among themselves and the ticks among themselves are in time
  order.  Times are nanoseconds, seconds are whole seconds of those.
 */
module Moments {
  import opened Windows

  datatype Option<T> = None | Some(value: T)

  datatype MomentMessage = MomentMessage(author: string, body: string, sentAt: int)

  datatype Moment = Moment(startedAt: nat, endedAt: nat, peakRate: real, baseline: real, excerpt: seq<MomentMessage>)

  datatype Bucket = Bucket(sec: nat, count: nat)

  /** One channel's state machine. */
  datatype Chan = Chan(buckets: seq<Bucket>, lastSeen: nat, baseline: real, recent: seq<MomentMessage>,
                       inSpike: bool, moment: Moment, quietSecs: nat, cooldownUntil: nat)
  {
    ghost predicate Shaped() {
      |buckets| == 10
    }
  }

  function NewChan(): (c: Chan)
    ensures c.Shaped()
  {
    Chan(seq(10, _ => Bucket(0, 0)), 0, 0.0, [], false, Moment(0, 0, 0.0, 0.0, []), 0, 0)
  }

  function Sec(t: nat): nat {
    t / 1_000_000_000
  }

  lemma SecMonotone(a: nat, b: nat)
    requires a <= b
    ensures Sec(a) <= Sec(b)
  {
  }

  function Max(a: real, b: real): (m: real)
    ensures m >= a && m >= b && (m == a || m == b)
  {
    if a > b then a else b
  }

  /** The rate that opens a moment. */
  function Opening(baseline: real): real {
    Max(5.0, 3.0 * baseline)
  }

  /** The rate below which a second counts as quiet. */
  function Closing(baseline: real): real {
    Max(3.0, 1.5 * baseline)
  }

  // ---- the rate ring ----

  function SlotIndex(s: nat): nat {
    s % 10
  }

  lemma SlotIndexSpreads()
    ensures Spread(SlotIndex, 10)
  {
  }

  function Noted(c: Chan, now: nat): (r: Chan)
    requires c.Shaped()
    ensures r.Shaped()
  {
    var i := SlotIndex(now);
    var count := if c.buckets[i].sec != now then 0 else c.buckets[i].count;
    c.(buckets := c.buckets[i := Bucket(now, count + 1)], lastSeen := now)
  }

  /** What the first `r` buckets add to the window ending at `now`. */
  function Total(bs: seq<Bucket>, now: nat, r: nat): nat
    requires r <= |bs|
  {
    if r == 0 then 0
    else Total(bs, now, r - 1) + if now - bs[r - 1].sec < 10 && bs[r - 1].sec <= now then bs[r - 1].count else 0
  }

  function RateOf(c: Chan, now: nat): (r: real)
    requires c.Shaped()
    ensures r >= 0.0
  {
    Total(c.buckets, now, 10) as real / 10.0
  }

  /** The last eight messages, oldest first. */
  function Remembered(recent: seq<MomentMessage>, m: MomentMessage): seq<MomentMessage> {
    var r := recent + [m];
    if |r| > 8 then r[1..] else r
  }

  // ---- the excerpt ----

  /** The newest distinct messages of the ring not yet seen, at most `room` of them, oldest first. */
  function Newest(ring: seq<MomentMessage>, seen: set<MomentMessage>, room: nat): seq<MomentMessage> {
    if ring == [] || room == 0 then []
    else
      var init, m := ring[..|ring| - 1], ring[|ring| - 1];
      if m in seen then Newest(init, seen, room) else Newest(init, seen + {m}, room - 1) + [m]
  }

  /** The onset half of an excerpt. */
  function OnsetHalf(excerpt: seq<MomentMessage>): (h: seq<MomentMessage>)
    ensures |h| <= 4
  {
    if |excerpt| > 4 then excerpt[..4] else excerpt
  }

  function SetOf(s: seq<MomentMessage>): set<MomentMessage> {
    set m | m in s
  }

  function Refreshed(excerpt: seq<MomentMessage>, ring: seq<MomentMessage>): seq<MomentMessage> {
    var head := OnsetHalf(excerpt);
    head + Newest(ring, SetOf(head), 8 - |head|)
  }

  ghost predicate Distinct(s: seq<MomentMessage>) {
    forall i, j :: 0 <= i < j < |s| ==> s[i] != s[j]
  }

  /** The fill is distinct, new, and exactly the unseen messages of a suffix of the ring: all of it if there is room. */
  lemma {:induction false} NewestIsTheFreshest(ring: seq<MomentMessage>, seen: set<MomentMessage>, room: nat)
    ensures var r := Newest(ring, seen, room);
            && |r| <= room && Distinct(r) && (forall m :: m in r ==> m !in seen)
            && exists k: nat :: FillsFrom(r, ring, seen, room, k)
  {
    if ring == [] || room == 0 {
      assert FillsFrom([], ring, seen, room, |ring|);
    } else {
      var n, m := |ring| - 1, ring[|ring| - 1];
      var init := ring[..n];
      var r := Newest(ring, seen, room);
      if m in seen {
        NewestIsTheFreshest(init, seen, room);
        var k: nat :| FillsFrom(r, init, seen, room, k);
        assert ring[k..] == init[k..] + [m];
        assert FillsFrom(r, ring, seen, room, k);
      } else {
        NewestIsTheFreshest(init, seen + {m}, room - 1);
        var rest := Newest(init, seen + {m}, room - 1);
        var k: nat :| FillsFrom(rest, init, seen + {m}, room - 1, k);
        assert ring[k..] == init[k..] + [m];
        assert r == rest + [m];
        assert FillsFrom(r, ring, seen, room, k);
      }
    }
  }

  ghost predicate FillsFrom(r: seq<MomentMessage>, ring: seq<MomentMessage>, seen: set<MomentMessage>, room: nat, k: nat) {
    && k <= |ring|
    && (forall m :: m in r <==> m in ring[k..] && m !in seen)
    && (|r| < room ==> k == 0)
  }

  /** `r` is `s` with some entries left out. */
  ghost predicate Subsequence(r: seq<MomentMessage>, s: seq<MomentMessage>) {
    r == [] || (s != [] && (Subsequence(r, s[..|s| - 1])
                            || (r[|r| - 1] == s[|s| - 1] && Subsequence(r[..|r| - 1], s[..|s| - 1]))))
  }

  /** The fill is in chronological order, and holds the latest message unless it was seen or there is no room. */
  lemma {:induction false} NewestInOrder(ring: seq<MomentMessage>, seen: set<MomentMessage>, room: nat)
    ensures var r := Newest(ring, seen, room);
            && Subsequence(r, ring)
            && (ring != [] && room > 0 && ring[|ring| - 1] !in seen ==> r != [] && r[|r| - 1] == ring[|ring| - 1])
  {
    if ring != [] && room > 0 {
      var init, m := ring[..|ring| - 1], ring[|ring| - 1];
      if m in seen {
        NewestInOrder(init, seen, room);
      } else {
        NewestInOrder(init, seen + {m}, room - 1);
        var r := Newest(ring, seen, room);
        assert r[..|r| - 1] == Newest(init, seen + {m}, room - 1);
      }
    }
  }

  /**
    `r` is the first four entries of `excerpt`, then, in chronological order, `fill`: the distinct
    messages of ring[k..] not among those four, with k 0 unless they make eight in all.
   */
  ghost predicate IsRefresh(r: seq<MomentMessage>, excerpt: seq<MomentMessage>, ring: seq<MomentMessage>,
                            fill: seq<MomentMessage>, k: nat) {
    var head := if |excerpt| > 4 then excerpt[..4] else excerpt;
    && r == head + fill && |r| <= 8 && (|r| < 8 ==> k == 0)
    && Subsequence(fill, ring) && Distinct(fill) && k <= |ring|
    && forall m :: m in fill <==> m in ring[k..] && m !in head
  }

  /** A refreshed excerpt is the onset half and the newest distinct messages of the ring that fit. */
  lemma RefreshedIs(excerpt: seq<MomentMessage>, ring: seq<MomentMessage>) returns (fill: seq<MomentMessage>, k: nat)
    ensures IsRefresh(Refreshed(excerpt, ring), excerpt, ring, fill, k)
  {
    var head := OnsetHalf(excerpt);
    fill := Newest(ring, SetOf(head), 8 - |head|);
    NewestIsTheFreshest(ring, SetOf(head), 8 - |head|);
    NewestInOrder(ring, SetOf(head), 8 - |head|);
    k :| FillsFrom(fill, ring, SetOf(head), 8 - |head|, k);
    assert forall m :: m in SetOf(head) <==> m in head;
  }

  /** Refreshing keeps the onset half and stays within eight entries. */
  lemma RefreshKeepsOnset(excerpt: seq<MomentMessage>, ring: seq<MomentMessage>)
    ensures var r := Refreshed(excerpt, ring);
            |r| <= 8 && |OnsetHalf(excerpt)| <= |r| && r[..|OnsetHalf(excerpt)|] == OnsetHalf(excerpt)
  {
    var head := OnsetHalf(excerpt);
    NewestIsTheFreshest(ring, SetOf(head), 8 - |head|);
  }

  // ---- one evaluation of a channel ----

  datatype Ticked = Pruned | Ticked(chan: Chan, closed: Option<Moment>)

  function Tracked(m: Moment, rate: real, ring: seq<MomentMessage>): Moment {
    var peak := if rate > m.peakRate then rate else m.peakRate;
    Moment(m.startedAt, m.endedAt, peak, m.baseline,
           if rate >= peak * 0.9 then Refreshed(m.excerpt, ring) else m.excerpt)
  }

  function Advanced(c: Chan, now: nat, rate: real): (t: Ticked)
    requires c.Shaped()
    ensures t.Ticked? && t.chan.Shaped()
  {
    var m := Tracked(c.moment, rate, c.recent);
    if rate >= Closing(c.baseline) then Ticked(c.(moment := m, quietSecs := 0), None)
    else if c.quietSecs + 1 < 5 then Ticked(c.(moment := m, quietSecs := c.quietSecs + 1), None)
    else
      Ticked(c.(moment := m, quietSecs := c.quietSecs + 1, inSpike := false, cooldownUntil := Sec(now) + 30),
             if now - m.startedAt < 3_000_000_000 then None else Some(m.(endedAt := now)))
  }

  function Learned(c: Chan, now: nat, rate: real): (r: Chan)
    requires c.Shaped()
    ensures r.Shaped()
  {
    var b := c.baseline * 0.98 + rate * 0.02;
    if Sec(now) >= c.cooldownUntil && rate >= Opening(b) then
      c.(baseline := b, inSpike := true, quietSecs := 0, moment := Moment(now, 0, rate, b, c.recent))
    else c.(baseline := b)
  }

  function Evaluated(c: Chan, now: nat): (t: Ticked)
    requires c.Shaped()
    ensures t.Ticked? ==> t.chan.Shaped()
  {
    var rate := RateOf(c, Sec(now));
    if Sec(now) - c.lastSeen > 300 then Pruned
    else if c.inSpike then Advanced(c, now, rate)
    else Ticked(Learned(c, now, rate), None)
  }

  /** The scan of the ring from its end, newest first. */
  method PickNewest(ring: seq<MomentMessage>, head: set<MomentMessage>, room: nat) returns (newest: seq<MomentMessage>)
    ensures Backwards(newest) == Newest(ring, head, room)
  {
    var seen := head;
    newest := [];
    var i := |ring| - 1;
    assert ring[..i + 1] == ring;
    while i >= 0 && |newest| < room
      invariant -1 <= i < |ring| && |newest| <= room
      invariant Newest(ring, head, room) == Newest(ring[..i + 1], seen, room - |newest|) + Backwards(newest)
    {
      var m := ring[i];
      assert ring[..i + 1][..i] == ring[..i];
      if m !in seen {
        seen := seen + {m};
        BackwardsSnoc(newest, m);
        newest := newest + [m];
      }
      i := i - 1;
    }
  }

  method AppendReversed(head: seq<MomentMessage>, tail: seq<MomentMessage>) returns (out: seq<MomentMessage>)
    ensures out == head + Backwards(tail)
  {
    out := head;
    var i := |tail| - 1;
    assert tail[..i + 1] == tail;
    while i >= 0
      invariant -1 <= i < |tail|
      invariant out + Backwards(tail[..i + 1]) == head + Backwards(tail)
    {
      assert tail[..i + 1] == tail[..i] + [tail[i]];
      BackwardsSnoc(tail[..i], tail[i]);
      out := out + [tail[i]];
      i := i - 1;
    }
  }

  class ChannelState {
    const buckets: array<Bucket>
    var lastSeen: nat
    var baseline: real
    var recent: seq<MomentMessage>
    var inSpike: bool
    var moment: Moment
    var quietSecs: nat
    var cooldownUntil: nat

    ghost function Abs(): Chan
      reads this, buckets
    {
      Chan(buckets[..], lastSeen, baseline, recent, inSpike, moment, quietSecs, cooldownUntil)
    }

    constructor ()
      ensures fresh(buckets) && Abs() == NewChan()
    {
      buckets := new Bucket[10](_ => Bucket(0, 0));
      lastSeen, baseline, recent, inSpike := 0, 0.0, [], false;
      moment, quietSecs, cooldownUntil := Moment(0, 0, 0.0, 0.0, []), 0, 0;
    }

    method Record(now: nat)
      requires Abs().Shaped()
      modifies this`lastSeen, buckets
      ensures Abs() == Noted(old(Abs()), now)
    {
      var i := now % 10;
      if buckets[i].sec != now {
        buckets[i] := Bucket(now, 0);
      }
      buckets[i] := buckets[i].(count := buckets[i].count + 1);
      lastSeen := now;
    }

    method Rate(now: nat) returns (r: real)
      requires Abs().Shaped()
      ensures r == RateOf(Abs(), now)
      ensures forall log :: RingOk(Abs(), log) && UpTo(log, SecOf, now) ==> r == Recount(log, SecOf, One, now, 10) as real / 10.0
    {
      var total, i := 0, 0;
      while i < 10
        invariant i <= 10 && total == Total(buckets[..], now, i)
      {
        if now - buckets[i].sec < 10 && buckets[i].sec <= now {
          total := total + buckets[i].count;
        }
        i := i + 1;
      }
      r := total as real / 10.0;
      forall log | RingOk(Abs(), log) && UpTo(log, SecOf, now)
        ensures r == Recount(log, SecOf, One, now, 10) as real / 10.0
      {
        TotalIsRecount(Abs(), log, now);
      }
    }

    method Remember(m: MomentMessage)
      modifies this`recent
      ensures recent == Remembered(old(recent), m)
    {
      recent := recent + [m];
      if |recent| > 8 {
        recent := recent[1..];
      }
    }

    method RefreshExcerpt()
      modifies this`moment
      ensures moment == old(moment).(excerpt := Refreshed(old(moment.excerpt), recent))
      ensures exists fill, k: nat :: IsRefresh(moment.excerpt, old(moment.excerpt), recent, fill, k)
    {
      ghost var fill, k := RefreshedIs(moment.excerpt, recent);
      var head := moment.excerpt;
      if |head| > 4 {
        head := head[..4];
      }
      var out := head;
      assert head == OnsetHalf(old(moment.excerpt));
      var seen: set<MomentMessage> := {};
      for i := 0 to |out|
        invariant seen == SetOf(out[..i])
      {
        seen := seen + {out[i]};
      }
      assert out[..|out|] == out;
      var newest := PickNewest(recent, seen, 8 - |out|);
      out := AppendReversed(out, newest);
      moment := moment.(excerpt := out);
    }

    method AdvanceSpike(now: nat, rate: real) returns (closed: Option<Moment>)
      requires Abs().Shaped()
      modifies this
      ensures Abs() == Advanced(old(Abs()), now, rate).chan
      ensures closed == Advanced(old(Abs()), now, rate).closed
      ensures moment.peakRate == (if rate > old(moment.peakRate) then rate else old(moment.peakRate))
      ensures moment.excerpt == if rate >= moment.peakRate * 0.9 then Refreshed(old(moment.excerpt), recent)
                                else old(moment.excerpt)
      ensures moment.startedAt == old(moment.startedAt) && moment.baseline == old(moment.baseline)
      ensures baseline == old(baseline) && recent == old(recent) && lastSeen == old(lastSeen)
      ensures var loud := rate >= 3.0 && rate >= 1.5 * baseline;
              && quietSecs == (if loud then 0 else old(quietSecs) + 1)
              && inSpike == (old(inSpike) && (loud || quietSecs < 5))
              && cooldownUntil == (if loud || quietSecs < 5 then old(cooldownUntil) else Sec(now) + 30)
              && closed == (if loud || quietSecs < 5 || now - moment.startedAt < 3_000_000_000 then None
                            else Some(moment.(endedAt := now)))
    {
      if rate > moment.peakRate {
        moment := moment.(peakRate := rate);
      }
      if rate >= moment.peakRate * 0.9 {
        RefreshExcerpt();
      }
      if rate >= Max(5.0 * 0.6, baseline * 1.5) {
        quietSecs := 0;
        return None;
      }
      quietSecs := quietSecs + 1;
      if quietSecs < 5 {
        return None;
      }
      inSpike := false;
      cooldownUntil := Sec(now) + 30;
      if now - moment.startedAt < 3_000_000_000 {
        return None;
      }
      return Some(moment.(endedAt := now));
    }

    /** The detector's work on one channel at a tick; `idle` says the channel is dropped. */
    method Evaluate(now: nat) returns (idle: bool, closed: Option<Moment>)
      requires Abs().Shaped()
      modifies this
      ensures idle <==> Evaluated(old(Abs()), now).Pruned?
      ensures !idle ==> Evaluated(old(Abs()), now) == Ticked(Abs(), closed)
      ensures idle <==> Sec(now) - old(lastSeen) > 300
      ensures !idle && !old(inSpike) ==>
                var rate := RateOf(old(Abs()), Sec(now));
                && closed == None && baseline == 0.98 * old(baseline) + 0.02 * rate
                && (inSpike <==> Sec(now) >= cooldownUntil && rate >= 5.0 && rate >= 3.0 * baseline)
                && (inSpike ==> moment == Moment(now, 0, rate, baseline, recent) && quietSecs == 0)
                && cooldownUntil == old(cooldownUntil) && recent == old(recent) && lastSeen == old(lastSeen)
    {
      var nowSec := Sec(now);
      if nowSec - lastSeen > 300 {
        return true, None;
      }
      var rate := Rate(nowSec);
      if inSpike {
        closed := AdvanceSpike(now, rate);
        return false, closed;
      }
      baseline := baseline * (1.0 - 0.02) + rate * 0.02;
      if nowSec >= cooldownUntil && rate >= Max(5.0, 3.0 * baseline) {
        inSpike := true;
        quietSecs := 0;
        moment := Moment(now, 0, rate, baseline, recent);
      }
      return false, None;
    }
  }

  function Backwards(s: seq<MomentMessage>): seq<MomentMessage> {
    if s == [] then [] else [s[|s| - 1]] + Backwards(s[..|s| - 1])
  }

  lemma BackwardsSnoc(s: seq<MomentMessage>, m: MomentMessage)
    ensures Backwards(s + [m]) == [m] + Backwards(s)
  {
    assert (s + [m])[..|s|] == s;
  }

  // ---- the log the ring stands for ----

  /** A message as the detector saw it. */
  datatype Seen = Seen(sec: nat, msg: MomentMessage)

  function SecOf(h: Seen): nat {
    h.sec
  }

  function One(h: Seen): nat {
    1
  }

  function BucketSlot(b: Bucket): Slot {
    if b.count == 0 then Unused else Used(b.sec)
  }

  function Slots(bs: seq<Bucket>): seq<Slot> {
    seq(|bs|, i requires 0 <= i < |bs| => BucketSlot(bs[i]))
  }

  function CountsOf(bs: seq<Bucket>): seq<nat> {
    seq(|bs|, i requires 0 <= i < |bs| => bs[i].count)
  }

  ghost predicate RingOk(c: Chan, log: seq<Seen>) {
    && c.Shaped()
    && SlotsOk(Slots(c.buckets), log, SecOf, SlotIndex)
    && Counts(CountsOf(c.buckets), Slots(c.buckets), log, SecOf, One)
  }

  lemma NewRingOk()
    ensures RingOk(NewChan(), [])
  {
  }

  lemma NotedRing(c: Chan, log: seq<Seen>, h: Seen)
    requires RingOk(c, log) && UpTo(log, SecOf, h.sec)
    ensures RingOk(Noted(c, h.sec), log + [h])
  {
    var i := SlotIndex(h.sec);
    var after := Noted(c, h.sec).buckets;
    SlotIndexSpreads();
    RecordSlots(Slots(c.buckets), log, h, SecOf, SlotIndex);
    RecordCounts(Slots(c.buckets), CountsOf(c.buckets), log, h, SecOf, One, SlotIndex);
    assert Slots(after) == Slots(c.buckets)[i := Used(h.sec)];
    assert CountsOf(after) == CountsOf(c.buckets)[i := Bump(Slots(c.buckets)[i], CountsOf(c.buckets)[i], h.sec, 1)];
  }

  lemma {:induction false} TotalIsLive(bs: seq<Bucket>, now: nat, r: nat)
    requires r <= |bs|
    ensures Total(bs, now, r) == LiveSum(Slots(bs), CountsOf(bs), now, 10, r)
  {
    if r > 0 {
      TotalIsLive(bs, now, r - 1);
    }
  }

  /** If no message is stamped later than `now`, the total is the recount of the window. */
  lemma TotalIsRecount(c: Chan, log: seq<Seen>, now: nat)
    requires RingOk(c, log) && UpTo(log, SecOf, now)
    ensures Total(c.buckets, now, 10) == Recount(log, SecOf, One, now, 10)
  {
    TotalIsLive(c.buckets, now, 10);
    SlotIndexSpreads();
    LiveSumIsRecount(Slots(c.buckets), CountsOf(c.buckets), log, SecOf, One, SlotIndex, now);
  }

  /** In any case it is never more than the messages there are. */
  lemma TotalIsBounded(c: Chan, log: seq<Seen>, now: nat)
    requires RingOk(c, log)
    ensures Total(c.buckets, now, 10) <= |log|
  {
    TotalIsLive(c.buckets, now, 10);
    LiveSumBounded(Slots(c.buckets), CountsOf(c.buckets), log, SecOf, One, SlotIndex, now, 10, 10);
    forall h: Seen ensures Below(SecOf, One, SlotIndex, 10)(h) <= 1 {
      assert One(h) == 1;
    }
    SumOfOnes(log, Below(SecOf, One, SlotIndex, 10));
  }

  lemma {:induction false} SumOfOnes(log: seq<Seen>, w: Seen -> nat)
    requires forall h :: w(h) <= 1
    ensures Sum(log, w) <= |log|
  {
    if log != [] {
      SumOfOnes(log[..|log| - 1], w);
    }
  }

  /** A positive rate means a message in the window. */
  lemma {:induction false} TotalNeedsAMessage(c: Chan, log: seq<Seen>, now: nat, r: nat) returns (h: Seen)
    requires RingOk(c, log) && r <= 10 && Total(c.buckets, now, r) > 0
    ensures h in log && now < h.sec + 10
  {
    var b := c.buckets[r - 1];
    if now - b.sec < 10 && b.sec <= now && b.count > 0 {
      assert SlotOk(Slots(c.buckets)[r - 1], r - 1, log, SecOf, SlotIndex);
      h :| h in log && SecOf(h) == b.sec;
    } else {
      h := TotalNeedsAMessage(c, log, now, r - 1);
    }
  }
}
