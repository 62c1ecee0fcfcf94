/**
  Flood sampling (internal/velocity/velocity.go): a three-second rate estimate per
  channel, and an accumulator that keeps a threshold/rate share of the ordinary
  messages of a channel above its threshold.
 */
module Velocity {
  import opened Windows

  /** One channel's counters; the zero value stands for a channel never seen. */
  datatype ChannelRate = ChannelRate(buckets: seq<nat>, secs: seq<nat>, firstSec: nat, keep: real) {
    ghost predicate Shaped() {
      |buckets| == 3 && |secs| == 3
    }
  }

  /** A chat message of one channel, with the threshold in force when it is annotated. */
  datatype Chat = Chat(sec: nat, threshold: int, priority: bool)

  function NewRate(): (c: ChannelRate)
    ensures c.Shaped()
  {
    ChannelRate([0, 0, 0], [0, 0, 0], 0, 0.0)
  }

  function SlotIndex(s: nat): nat {
    s % 3
  }

  lemma SlotIndexSpreads()
    ensures Spread(SlotIndex, 3)
  {
  }

  // ---- the rate estimate ----

  /** The counters after a message at second `now`. */
  function Noted(c: ChannelRate, now: nat): (r: ChannelRate)
    requires c.Shaped()
    ensures r.Shaped() && r.keep == c.keep
  {
    var i := SlotIndex(now);
    ChannelRate(c.buckets[i := (if c.secs[i] != now then 0 else c.buckets[i]) + 1], c.secs[i := now],
                if c.firstSec == 0 then now else c.firstSec, c.keep)
  }

  /** What the first `r` buckets add to the total. */
  function Total(c: ChannelRate, now: nat, r: nat): nat
    requires c.Shaped() && r <= 3
  {
    if r == 0 then 0 else Total(c, now, r - 1) + if now - c.secs[r - 1] < 3 then c.buckets[r - 1] else 0
  }

  function Span(now: nat, first: nat): (s: int)
    ensures 1 <= s <= 3
  {
    var s := now - first + 1;
    if s > 3 then 3 else if s < 1 then 1 else s
  }

  function RateOf(c: ChannelRate, now: nat): real
    requires c.Shaped()
  {
    Total(c, now, 3) as real / Span(now, c.firstSec) as real
  }

  method Record(c: ChannelRate, now: nat) returns (r: ChannelRate, rate: real)
    requires c.Shaped()
    ensures r == Noted(c, now) && rate == RateOf(r, now)
    ensures forall log :: Refines(c, log) && UpTo(log, SecOf, now)
              ==> forall h: Chat :: h.sec == now ==> rate == RecountedRate(log + [h])
  {
    r := c;
    if r.firstSec == 0 {
      r := r.(firstSec := now);
    }
    var idx := now % 3;
    if r.secs[idx] != now {
      r := r.(secs := r.secs[idx := now], buckets := r.buckets[idx := 0]);
    }
    r := r.(buckets := r.buckets[idx := r.buckets[idx] + 1]);
    assert r.secs == c.secs[idx := now];
    assert r.buckets == Noted(c, now).buckets;
    var total, i := 0, 0;
    while i < 3
      invariant i <= 3 && total == Total(r, now, i)
    {
      if now - r.secs[i] < 3 {
        total := total + r.buckets[i];
      }
      i := i + 1;
    }
    var span := now - r.firstSec + 1;
    if span > 3 {
      span := 3;
    }
    if span < 1 {
      span := 1;
    }
    rate := total as real / span as real;
    forall log, h: Chat | Refines(c, log) && UpTo(log, SecOf, now) && h.sec == now
      ensures rate == RecountedRate(log + [h])
    {
      RateIsRecount(c, log, h);
    }
  }

  // ---- the log the counters stand for ----

  function SecOf(h: Chat): nat {
    h.sec
  }

  function One(h: Chat): nat {
    1
  }

  /** The first second counted as the channel's start; second zero reads as "not started". */
  function FirstSec(log: seq<Chat>): nat {
    if log == [] then 0
    else
      var first := FirstSec(log[..|log| - 1]);
      if first == 0 then log[|log| - 1].sec else first
  }

  lemma {:induction false} FirstSecIsTheFirst(log: seq<Chat>)
    requires log != [] && log[0].sec > 0
    ensures FirstSec(log) == log[0].sec
  {
    if |log| > 1 {
      FirstSecIsTheFirst(log[..|log| - 1]);
    } else {
      assert log[..0] == [];
    }
  }

  /** The rate at the last message: the messages of its three-second window, over the seconds elapsed. */
  ghost function RecountedRate(log: seq<Chat>): real
    requires log != []
  {
    var now := log[|log| - 1].sec;
    var elapsed := now - FirstSec(log) + 1;
    Recount(log, SecOf, One, now, 3) as real / if elapsed >= 3 then 3.0 else if elapsed == 2 then 2.0 else 1.0
  }

  /** That is, over the seconds since the channel's first message, itself included, three at most. */
  lemma RateOverElapsed(log: seq<Chat>)
    requires log != [] && Nondecreasing(log) && log[0].sec > 0
    ensures var now, first := log[|log| - 1].sec, log[0].sec;
            && first <= now
            && RecountedRate(log) * (if now - first + 1 > 3 then 3 else now - first + 1) as real
               == Recount(log, SecOf, One, now, 3) as real
  {
    FirstSecIsTheFirst(log);
    assert log[0].sec <= log[|log| - 1].sec;
  }

  function RateSlot(bucket: nat, sec: nat): Slot {
    if bucket == 0 then Unused else Used(sec)
  }

  function Slots(c: ChannelRate): seq<Slot>
    requires c.Shaped()
  {
    seq(3, i requires 0 <= i < 3 => RateSlot(c.buckets[i], c.secs[i]))
  }

  ghost predicate Refines(c: ChannelRate, log: seq<Chat>) {
    && c.Shaped()
    && SlotsOk(Slots(c), log, SecOf, SlotIndex)
    && Counts(c.buckets, Slots(c), log, SecOf, One)
    && c.firstSec == FirstSec(log)
  }

  lemma NewRateRefines()
    ensures Refines(NewRate(), [])
  {
  }

  lemma NotedRefines(c: ChannelRate, log: seq<Chat>, h: Chat)
    requires Refines(c, log) && UpTo(log, SecOf, h.sec)
    ensures Refines(Noted(c, h.sec), log + [h]) && UpTo(log + [h], SecOf, h.sec)
  {
    var i := SlotIndex(h.sec);
    var after := Noted(c, h.sec);
    SlotIndexSpreads();
    RecordSlots(Slots(c), log, h, SecOf, SlotIndex);
    RecordCounts(Slots(c), c.buckets, log, h, SecOf, One, SlotIndex);
    assert Slots(after) == Slots(c)[i := Used(h.sec)];
    assert (log + [h])[..|log|] == log;
    assert after.buckets == c.buckets[i := Bump(Slots(c)[i], c.buckets[i], h.sec, 1)];
  }

  lemma {:induction false} TotalIsLive(c: ChannelRate, log: seq<Chat>, now: nat, r: nat)
    requires Refines(c, log) && UpTo(log, SecOf, now) && r <= 3
    ensures Total(c, now, r) == LiveSum(Slots(c), c.buckets, now, 3, r)
  {
    if r > 0 {
      TotalIsLive(c, log, now, r - 1);
      assert SlotOk(Slots(c)[r - 1], r - 1, log, SecOf, SlotIndex);
      assert Slots(c)[r - 1].Used? ==> exists h :: h in log && SecOf(h) == c.secs[r - 1];
    }
  }

  /** The rate `record` returns is the recount. */
  lemma RateIsRecount(c: ChannelRate, log: seq<Chat>, h: Chat)
    requires Refines(c, log) && UpTo(log, SecOf, h.sec)
    ensures RateOf(Noted(c, h.sec), h.sec) == RecountedRate(log + [h])
  {
    var after := Noted(c, h.sec);
    NotedRefines(c, log, h);
    TotalIsLive(after, log + [h], h.sec, 3);
    SlotIndexSpreads();
    LiveSumIsRecount(Slots(after), after.buckets, log + [h], SecOf, One, SlotIndex, h.sec);
  }

  // ---- proportional keep ----

  datatype Outcome = Outcome(keep: real, sampled: bool)

  predicate Over(threshold: int, rate: real) {
    threshold > 0 && rate > threshold as real
  }

  /** What one chat message does to the accumulator. */
  function Decide(keep: real, rate: real, threshold: int, priority: bool): Outcome {
    if threshold <= 0 || rate <= threshold as real then Outcome(0.0, false)
    else if priority then Outcome(keep, false)
    else
      var k := keep + threshold as real / rate;
      if k >= 1.0 then Outcome(k - 1.0, false) else Outcome(k, true)
  }

  function Advance(c: ChannelRate, h: Chat): (r: ChannelRate)
    requires c.Shaped()
    ensures r.Shaped()
  {
    var n := Noted(c, h.sec);
    n.(keep := Decide(n.keep, RateOf(n, h.sec), h.threshold, h.priority).keep)
  }

  function Sampled(c: ChannelRate, h: Chat): bool
    requires c.Shaped()
  {
    var n := Noted(c, h.sec);
    Decide(n.keep, RateOf(n, h.sec), h.threshold, h.priority).sampled
  }

  function Run(log: seq<Chat>): (r: ChannelRate)
    ensures r.Shaped()
  {
    if log == [] then NewRate() else Advance(Run(log[..|log| - 1]), log[|log| - 1])
  }

  ghost predicate Nondecreasing(log: seq<Chat>) {
    forall i, j :: 0 <= i < j < |log| ==> log[i].sec <= log[j].sec
  }

  /** Whether message `i` of the log was marked. */
  predicate SampledAt(log: seq<Chat>, i: nat)
    requires i < |log|
  {
    Sampled(Run(log[..i]), log[i])
  }

  ghost function RateAt(log: seq<Chat>, i: nat): real
    requires i < |log|
  {
    RecountedRate(log[..i + 1])
  }

  ghost predicate OverAt(log: seq<Chat>, i: nat)
    requires i < |log|
  {
    Over(log[i].threshold, RateAt(log, i))
  }

  /** One if message i is ordinary and stayed unmarked. */
  ghost function KeptAt(log: seq<Chat>, i: nat): nat
    requires i < |log|
  {
    if !log[i].priority && !SampledAt(log, i) then 1 else 0
  }

  /** The share of message i the threshold allows: threshold/rate for an ordinary message. */
  ghost function ShareAt(log: seq<Chat>, i: nat): real
    requires i < |log| && OverAt(log, i)
  {
    if log[i].priority then 0.0 else log[i].threshold as real / RateAt(log, i)
  }

  /** How many ordinary messages of log[a..b] stayed unmarked. */
  ghost function Kept(log: seq<Chat>, a: nat, b: nat): nat
    requires a <= b <= |log|
  {
    if a == b then 0 else Kept(log, a, b - 1) + KeptAt(log, b - 1)
  }

  /** The whole stretch log[a..b] is above threshold. */
  ghost predicate Surge(log: seq<Chat>, a: nat, b: nat)
    requires a <= b <= |log|
  {
    forall i :: a <= i < b ==> OverAt(log, i)
  }

  /** The share of a surge: the sum of threshold/rate over its ordinary messages. */
  ghost function Share(log: seq<Chat>, a: nat, b: nat): real
    requires a <= b <= |log| && Surge(log, a, b)
  {
    if a == b then 0.0 else Share(log, a, b - 1) + ShareAt(log, b - 1)
  }

  lemma ShareIsProper(threshold: int, rate: real)
    requires Over(threshold, rate)
    ensures 0.0 < threshold as real / rate < 1.0
  {
    var t := threshold as real;
    var q := t / rate;
    assert q * rate == t;
  }

  lemma DecideKeepsRange(keep: real, rate: real, threshold: int, priority: bool)
    requires 0.0 <= keep < 1.0
    ensures 0.0 <= Decide(keep, rate, threshold, priority).keep < 1.0
  {
    if Over(threshold, rate) {
      ShareIsProper(threshold, rate);
    }
  }

  lemma {:induction false} RunRefines(log: seq<Chat>)
    requires Nondecreasing(log)
    ensures Refines(Run(log), log) && 0.0 <= Run(log).keep < 1.0
  {
    if log == [] {
      NewRateRefines();
    } else {
      var init, h := log[..|log| - 1], log[|log| - 1];
      RunRefines(init);
      NotedRefines(Run(init), init, h);
      assert log == init + [h];
      DecideKeepsRange(Run(init).keep, RateOf(Noted(Run(init), h.sec), h.sec), h.threshold, h.priority);
      assert Slots(Run(log)) == Slots(Noted(Run(init), h.sec));
    }
  }

  /** Message i, decided on the recounted rate. */
  lemma DecidedAt(log: seq<Chat>, i: nat)
    requires Nondecreasing(log) && i < |log|
    ensures var o := Decide(Run(log[..i]).keep, RateAt(log, i), log[i].threshold, log[i].priority);
            Run(log[..i + 1]).keep == o.keep && SampledAt(log, i) == o.sampled
  {
    var init := log[..i];
    RunRefines(init);
    assert log[..i + 1] == init + [log[i]];
    assert log[..i + 1][..i] == init;
    RateIsRecount(Run(init), init, log[i]);
  }

  /** Only ordinary messages of a channel above its threshold are ever marked. */
  lemma SampledOnlyOverload(log: seq<Chat>, i: nat)
    requires Nondecreasing(log) && i < |log| && SampledAt(log, i)
    ensures log[i].threshold > 0 && RateAt(log, i) > log[i].threshold as real && !log[i].priority
  {
    DecidedAt(log, i);
  }

  /** Falling to the threshold resets the accumulator, so no credit is carried into the next surge. */
  lemma CalmResets(log: seq<Chat>, i: nat)
    requires Nondecreasing(log) && i < |log| && (log[i].threshold <= 0 || RateAt(log, i) <= log[i].threshold as real)
    ensures Run(log[..i + 1]).keep == 0.0 && !SampledAt(log, i)
  {
    DecidedAt(log, i);
  }

  lemma DecideBalances(keep: real, rate: real, threshold: int, priority: bool)
    requires Over(threshold, rate)
    ensures var o := Decide(keep, rate, threshold, priority);
            (if !priority && !o.sampled then 1.0 else 0.0) + o.keep
            == keep + if priority then 0.0 else threshold as real / rate
  {
  }

  lemma MessageIsExact(log: seq<Chat>, i: nat)
    requires Nondecreasing(log) && i < |log| && OverAt(log, i)
    ensures KeptAt(log, i) as real + Run(log[..i + 1]).keep == Run(log[..i]).keep + ShareAt(log, i)
  {
    DecidedAt(log, i);
    DecideBalances(Run(log[..i]).keep, RateAt(log, i), log[i].threshold, log[i].priority);
  }

  lemma {:induction false} Telescope(log: seq<Chat>, a: nat, b: nat, keep: nat -> real)
    requires a <= b <= |log| && Surge(log, a, b)
    requires forall i: nat :: a <= i < b ==> KeptAt(log, i) as real + keep(i + 1) == keep(i) + ShareAt(log, i)
    ensures Kept(log, a, b) as real + keep(b) == keep(a) + Share(log, a, b)
    decreases b
  {
    if a < b {
      Telescope(log, a, b - 1, keep);
    }
  }

  function KeepAfter(log: seq<Chat>, i: nat): real {
    if i <= |log| then Run(log[..i]).keep else 0.0
  }

  /**
    Over any stretch above threshold, the number kept plus the accumulator at its end is the
    accumulator at its start plus the sum of the shares.
   */
  lemma KeepIsExact(log: seq<Chat>, a: nat, b: nat)
    requires Nondecreasing(log) && a <= b <= |log| && Surge(log, a, b)
    ensures Kept(log, a, b) as real + Run(log[..b]).keep == Run(log[..a]).keep + Share(log, a, b)
  {
    forall i: nat | a <= i < b
      ensures KeptAt(log, i) as real + KeepAfter(log, i + 1) == KeepAfter(log, i) + ShareAt(log, i)
    {
      MessageIsExact(log, i);
    }
    Telescope(log, a, b, (i: nat) => KeepAfter(log, i));
  }

  /** So the number kept is within one of the share, over every stretch, whatever the rates and thresholds. */
  lemma KeptWithinOne(log: seq<Chat>, a: nat, b: nat)
    requires Nondecreasing(log) && a <= b <= |log|
    requires Surge(log, a, b)
    ensures 0.0 <= Run(log[..b]).keep < 1.0
    ensures -1.0 < Kept(log, a, b) as real - Share(log, a, b) < 1.0
  {
    KeepIsExact(log, a, b);
    RunRefines(log[..a]);
    RunRefines(log[..b]);
  }

  // ---- the stage ----

  datatype Message = Message(chat: bool, channel: string, sec: nat, firstTime: bool, badges: seq<string>)

  /** A message together with the threshold read when it was annotated. */
  datatype Arrival = Arrival(threshold: int, msg: Message)

  predicate PriorityBadge(b: string) {
    b == "broadcaster" || b == "moderator" || b == "vip" || b == "subscriber" || b == "founder"
  }

  method IsPriority(m: Message) returns (r: bool)
    ensures r <==> Priority(m)
    ensures r <==>
              || m.firstTime
              || exists b :: b in m.badges && b in {"broadcaster", "moderator", "vip", "subscriber", "founder"}
  {
    if m.firstTime {
      return true;
    }
    for i := 0 to |m.badges|
      invariant forall j :: 0 <= j < i ==> !PriorityBadge(m.badges[j])
    {
      if PriorityBadge(m.badges[i]) {
        assert m.badges[i] in m.badges;
        return true;
      }
    }
    return false;
  }

  predicate Priority(m: Message) {
    m.firstTime || exists b :: b in m.badges && PriorityBadge(b)
  }

  function ChatOf(x: Arrival): Chat {
    Chat(x.msg.sec, x.threshold, Priority(x.msg))
  }

  function RateFor(chs: map<string, ChannelRate>, key: string): ChannelRate {
    if key in chs then chs[key] else NewRate()
  }

  ghost predicate AllShaped(chs: map<string, ChannelRate>) {
    forall key :: key in chs ==> chs[key].Shaped()
  }

  ghost function Annotated(chs: map<string, ChannelRate>, x: Arrival): map<string, ChannelRate>
    requires AllShaped(chs)
  {
    if !x.msg.chat then chs
    else chs[x.msg.channel := Advance(RateFor(chs, x.msg.channel), ChatOf(x))]
  }

  ghost predicate Marks(chs: map<string, ChannelRate>, x: Arrival)
    requires AllShaped(chs)
  {
    x.msg.chat && Sampled(RateFor(chs, x.msg.channel), ChatOf(x))
  }

  class Stage {
    var threshold: int
    var channels: map<string, ChannelRate>

    constructor (threshold: int)
      ensures this.threshold == threshold && channels == map[]
    {
      this.threshold := threshold;
      channels := map[];
    }

    /** `marked` is whether the message's sampled annotation is set. */
    method Annotate(msg: Message) returns (marked: bool)
      requires AllShaped(channels)
      modifies this`channels
      ensures AllShaped(channels)
      ensures channels == Annotated(old(channels), Arrival(threshold, msg))
      ensures marked == Marks(old(channels), Arrival(threshold, msg))
    {
      if !msg.chat {
        return false;
      }
      var c := RateFor(channels, msg.channel);
      var rate: real;
      c, rate := Record(c, msg.sec);
      if threshold <= 0 || rate <= threshold as real {
        channels := channels[msg.channel := c.(keep := 0.0)];
        return false;
      }
      var priority := IsPriority(msg);
      if priority {
        channels := channels[msg.channel := c];
        return false;
      }
      c := c.(keep := c.keep + threshold as real / rate);
      if c.keep >= 1.0 {
        channels := channels[msg.channel := c.(keep := c.keep - 1.0)];
        return false;
      }
      channels := channels[msg.channel := c];
      return true;
    }
  }

  ghost function RunStage(xs: seq<Arrival>): (chs: map<string, ChannelRate>)
    ensures AllShaped(chs)
  {
    if xs == [] then map[] else Annotated(RunStage(xs[..|xs| - 1]), xs[|xs| - 1])
  }

  /** The chat messages of one channel, in order. */
  function ChannelLog(xs: seq<Arrival>, key: string): seq<Chat> {
    if xs == [] then []
    else
      var x := xs[|xs| - 1];
      ChannelLog(xs[..|xs| - 1], key) + if x.msg.chat && x.msg.channel == key then [ChatOf(x)] else []
  }

  /** Channels do not affect one another: each one's state is a run of its own chat messages. */
  lemma {:induction false} StageIsPerChannel(xs: seq<Arrival>, key: string)
    ensures RateFor(RunStage(xs), key) == Run(ChannelLog(xs, key))
  {
    if xs != [] {
      var init, x := xs[..|xs| - 1], xs[|xs| - 1];
      StageIsPerChannel(init, key);
      if x.msg.chat && x.msg.channel == key {
        var log := ChannelLog(init, key);
        assert (log + [ChatOf(x)])[..|log|] == log;
      } else {
        assert ChannelLog(xs, key) == ChannelLog(init, key);
      }
    }
  }

  ghost predicate InTimeOrder(xs: seq<Arrival>) {
    forall i, j :: 0 <= i < j < |xs| ==> xs[i].msg.sec <= xs[j].msg.sec
  }

  lemma {:induction false} ChannelLogInOrder(xs: seq<Arrival>, key: string, now: nat)
    requires InTimeOrder(xs) && forall x :: x in xs ==> x.msg.sec <= now
    ensures Nondecreasing(ChannelLog(xs, key)) && UpTo(ChannelLog(xs, key), SecOf, now)
  {
    if xs != [] {
      ChannelLogInOrder(xs[..|xs| - 1], key, xs[|xs| - 1].msg.sec);
      var init := ChannelLog(xs[..|xs| - 1], key);
      assert forall i :: 0 <= i < |init| ==> SecOf(init[i]) <= xs[|xs| - 1].msg.sec;
    }
  }

  /**
    A message marked in any run of the stage is an ordinary chat message of a channel whose own
    recounted rate is above the threshold in force.
   */
  lemma MarkedMeansFlooded(xs: seq<Arrival>, x: Arrival)
    requires InTimeOrder(xs + [x]) && Marks(RunStage(xs), x)
    ensures x.msg.chat && !Priority(x.msg)
    ensures x.threshold > 0
    ensures RecountedRate(ChannelLog(xs, x.msg.channel) + [ChatOf(x)]) > x.threshold as real
  {
    var log := ChannelLog(xs, x.msg.channel);
    var all := log + [ChatOf(x)];
    StageIsPerChannel(xs, x.msg.channel);
    LastLog(xs, x);
    assert all[..|log|] == log && all[..|log| + 1] == all;
    SampledOnlyOverload(all, |log|);
  }

  lemma LastLog(xs: seq<Arrival>, x: Arrival)
    requires InTimeOrder(xs + [x]) && x.msg.chat
    ensures Nondecreasing(ChannelLog(xs, x.msg.channel) + [ChatOf(x)])
  {
    var all := xs + [x];
    assert all[..|xs|] == xs;
    forall y | y in all ensures y.msg.sec <= x.msg.sec {
      var i :| 0 <= i < |all| && all[i] == y;
      assert all[|xs|] == x;
    }
    ChannelLogInOrder(all, x.msg.channel, x.msg.sec);
  }
}
