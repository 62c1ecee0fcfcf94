/**
  Whole runs of the spike detector on one channel: messages and ticks in any
  interleaving, pruning and re-creation of the channel's state included.
 */
module MomentRuns {
  import opened Windows
  import opened Moments

  /** A persisted moment, the rates of its ticks, and how many messages had been seen when it opened. */
  datatype Closed = Closed(moment: Moment, rates: seq<real>, openAt: nat)

  /**
    The channel's state, if it has one, and the history: every message, how many of
    them precede the current state, every tick, the rates and opening point of the
    moment in progress, when moments opened, and the moments handed to the repository.
   */
  datatype World = World(chan: Option<Chan>, said: seq<Seen>, base: nat, ticks: seq<nat>,
                         rates: seq<real>, openAt: nat, starts: seq<nat>, closed: seq<Closed>)

  datatype Step = Say(at: nat, msg: MomentMessage) | Tick(now: nat)

  const START: World := World(None, [], 0, [], [], 0, [], [])

  function Last(ticks: seq<nat>): nat
    requires ticks != []
  {
    ticks[|ticks| - 1]
  }

  function Heard(c: Chan, s: nat, m: MomentMessage): (r: Chan)
    requires c.Shaped()
    ensures r.Shaped()
  {
    Noted(c, s).(recent := Remembered(c.recent, m))
  }

  ghost predicate Shaped(w: World) {
    w.chan.Some? ==> w.chan.value.Shaped()
  }

  function DoSay(w: World, at: nat, m: MomentMessage): (r: World)
    requires Shaped(w)
    ensures Shaped(r)
  {
    var c := if w.chan.Some? then w.chan.value else NewChan();
    w.(chan := Some(Heard(c, Sec(at), m)), said := w.said + [Seen(Sec(at), m)],
       base := if w.chan.Some? then w.base else |w.said|)
  }

  /** The history after an evaluation that took the channel from `c` to `t`. */
  function Noting(w: World, c: Chan, now: nat, t: Ticked): World
    requires c.Shaped()
  {
    var v := w.(ticks := w.ticks + [now]);
    match t
    case Pruned => v.(chan := None)
    case Ticked(d, closed) =>
      var rate := RateOf(c, Sec(now));
      if c.inSpike then
        v.(chan := Some(d), rates := w.rates + [rate],
           closed := if closed.Some? then w.closed + [Closed(closed.value, w.rates + [rate], w.openAt)] else w.closed)
      else if d.inSpike then
        v.(chan := Some(d), rates := [rate], openAt := |w.said|, starts := w.starts + [now])
      else v.(chan := Some(d))
  }

  function DoTick(w: World, now: nat): (r: World)
    requires Shaped(w)
    ensures Shaped(r)
  {
    if w.chan.None? then w.(ticks := w.ticks + [now])
    else Noting(w, w.chan.value, now, Evaluated(w.chan.value, now))
  }

  function Do(w: World, s: Step): (r: World)
    requires Shaped(w)
    ensures Shaped(r)
  {
    match s
    case Say(at, m) => DoSay(w, at, m)
    case Tick(now) => DoTick(w, now)
  }

  /** Messages come in time order, and so do ticks; nothing relates the two. */
  predicate Allowed(w: World, s: Step) {
    match s
    case Say(at, _) => w.said != [] ==> w.said[|w.said| - 1].sec <= Sec(at)
    case Tick(now) => w.ticks != [] ==> Last(w.ticks) <= now
  }

  function Exec(steps: seq<Step>): (w: World)
    ensures Shaped(w)
  {
    if steps == [] then START else Do(Exec(steps[..|steps| - 1]), steps[|steps| - 1])
  }

  ghost predicate Legal(steps: seq<Step>)
    decreases |steps|
  {
    steps != [] ==>
      Legal(steps[..|steps| - 1]) && Allowed(Exec(steps[..|steps| - 1]), steps[|steps| - 1])
  }

  // ---- what a moment's history must say ----

  ghost predicate IsMax(p: real, rates: seq<real>) {
    p in rates && forall r :: r in rates ==> r <= p
  }

  /** How many of the latest rates in a row are below the closing threshold. */
  function TrailingQuiet(rates: seq<real>, baseline: real): nat {
    if rates == [] || (rates[|rates| - 1] >= 3.0 && rates[|rates| - 1] >= 1.5 * baseline) then 0
    else TrailingQuiet(rates[..|rates| - 1], baseline) + 1
  }

  ghost predicate NeverFive(rates: seq<real>, baseline: real) {
    forall k :: 0 <= k <= |rates| ==> TrailingQuiet(rates[..k], baseline) < 5
  }

  function Messages(log: seq<Seen>): (r: seq<MomentMessage>)
    ensures |r| == |log|
  {
    seq(|log|, i requires 0 <= i < |log| => log[i].msg)
  }

  function LastEight(log: seq<Seen>): seq<MomentMessage> {
    Messages(if |log| > 8 then log[|log| - 8..] else log)
  }

  /** At most eight entries, the first four being the first half of the eight messages before the onset. */
  ghost predicate ExcerptOk(x: seq<MomentMessage>, said: seq<Seen>, openAt: nat) {
    && 8 <= openAt <= |said| && 4 <= |x| <= 8
    && x[..4] == Messages(said[openAt - 8..openAt - 4])
  }

  /** The peak is the largest of the rates, the first of which opened the moment. */
  ghost predicate PeakOk(m: Moment, rates: seq<real>) {
    rates != [] && IsMax(m.peakRate, rates) && rates[0] >= 5.0 && rates[0] >= 3.0 * m.baseline
  }

  ghost predicate OpenOk(c: Chan, rates: seq<real>, said: seq<Seen>, openAt: nat) {
    c.inSpike ==>
      && PeakOk(c.moment, rates) && ExcerptOk(c.moment.excerpt, said, openAt)
      && c.moment.baseline == c.baseline
      && c.quietSecs == TrailingQuiet(rates, c.baseline) && NeverFive(rates, c.baseline)
  }

  /** A persisted moment ended at its first run of five quiet ticks, three seconds or more after it began. */
  ghost predicate ClosedOk(x: Closed, said: seq<Seen>) {
    && PeakOk(x.moment, x.rates) && ExcerptOk(x.moment.excerpt, said, x.openAt)
    && TrailingQuiet(x.rates, x.moment.baseline) == 5
    && NeverFive(x.rates[..|x.rates| - 1], x.moment.baseline)
    && x.moment.startedAt + 3_000_000_000 <= x.moment.endedAt
  }

  ghost predicate AllClosedOk(closed: seq<Closed>, said: seq<Seen>) {
    forall i :: 0 <= i < |closed| ==> ClosedOk(closed[i], said)
  }

  // ---- messages against the state ----

  ghost predicate InOrder(said: seq<Seen>) {
    forall i, j :: 0 <= i < j < |said| ==> said[i].sec <= said[j].sec
  }

  /** More than 300 seconds older than the latest tick. */
  ghost predicate Stale(log: seq<Seen>, ticks: seq<nat>) {
    log != [] ==> ticks != [] && forall h :: h in log ==> h.sec + 300 < Sec(Last(ticks))
  }

  ghost predicate ChanOk(c: Chan, said: seq<Seen>, base: nat) {
    && base < |said| && RingOk(c, said[base..])
    && c.lastSeen == said[|said| - 1].sec
    && c.recent == LastEight(said[base..])
  }

  ghost predicate LogOk(w: World) {
    && InOrder(w.said)
    && (w.chan.None? ==> Stale(w.said, w.ticks))
    && (w.chan.Some? ==> ChanOk(w.chan.value, w.said, w.base) && Stale(w.said[..w.base], w.ticks))
  }

  ghost predicate SpikeOk(w: World) {
    && (w.chan.Some? ==> OpenOk(w.chan.value, w.rates, w.said, w.openAt))
    && AllClosedOk(w.closed, w.said)
  }

  lemma LastEightSnoc(log: seq<Seen>, h: Seen)
    ensures Remembered(LastEight(log), h.msg) == LastEight(log + [h])
  {
  }

  lemma SayKeepsChan(c: Chan, said: seq<Seen>, base: nat, h: Seen)
    requires base <= |said| && InOrder(said + [h])
    requires RingOk(c, said[base..]) && c.recent == LastEight(said[base..])
    ensures ChanOk(Heard(c, h.sec, h.msg), said + [h], base)
  {
    var log := said[base..];
    assert (said + [h])[base..] == log + [h];
    forall g | g in log ensures SecOf(g) <= h.sec {
      var i :| base <= i < |said| && said[i] == g;
      assert (said + [h])[i] == g && (said + [h])[|said|] == h;
    }
    NotedRing(c, log, h);
    LastEightSnoc(log, h);
  }

  lemma SayInOrder(said: seq<Seen>, h: Seen)
    requires InOrder(said) && (said != [] ==> said[|said| - 1].sec <= h.sec)
    ensures InOrder(said + [h])
  {
  }

  lemma SayKeepsLog(w: World, at: nat, m: MomentMessage)
    requires LogOk(w) && Allowed(w, Say(at, m))
    ensures LogOk(DoSay(w, at, m))
  {
    var h := Seen(Sec(at), m);
    SayInOrder(w.said, h);
    if w.chan.Some? {
      SayToKnown(w.chan.value, w.said, w.base, w.ticks, h);
    } else {
      SayToNew(w.said, w.ticks, h);
    }
  }

  lemma SayToKnown(c: Chan, said: seq<Seen>, base: nat, ticks: seq<nat>, h: Seen)
    requires ChanOk(c, said, base) && Stale(said[..base], ticks) && InOrder(said + [h])
    ensures ChanOk(Heard(c, h.sec, h.msg), said + [h], base) && Stale((said + [h])[..base], ticks)
  {
    SayKeepsChan(c, said, base, h);
    assert (said + [h])[..base] == said[..base];
  }

  lemma SayToNew(said: seq<Seen>, ticks: seq<nat>, h: Seen)
    requires Stale(said, ticks) && InOrder(said + [h])
    ensures ChanOk(Heard(NewChan(), h.sec, h.msg), said + [h], |said|) && Stale((said + [h])[..|said|], ticks)
  {
    assert said[|said|..] == [];
    NewRingOk();
    SayKeepsChan(NewChan(), said, |said|, h);
    assert (said + [h])[..|said|] == said;
  }

  lemma SayKeepsSpike(w: World, at: nat, m: MomentMessage)
    requires LogOk(w) && SpikeOk(w)
    ensures SpikeOk(DoSay(w, at, m))
  {
    var h := Seen(Sec(at), m);
    forall x, k | ExcerptOk(x, w.said, k) ensures ExcerptOk(x, w.said + [h], k) {
      assert (w.said + [h])[k - 8..k - 4] == w.said[k - 8..k - 4];
    }
  }

  lemma StaleLater(log: seq<Seen>, ticks: seq<nat>, now: nat)
    requires Stale(log, ticks) && (ticks != [] ==> Last(ticks) <= now)
    ensures Stale(log, ticks + [now])
  {
    if log != [] {
      SecMonotone(Last(ticks), now);
    }
  }

  /** Evaluating a channel touches neither its ring nor its recent messages. */
  lemma EvaluationKeepsRing(c: Chan, said: seq<Seen>, base: nat, now: nat)
    requires ChanOk(c, said, base) && Evaluated(c, now).Ticked?
    ensures ChanOk(Evaluated(c, now).chan, said, base)
  {
    var d := Evaluated(c, now).chan;
    assert d.buckets == c.buckets && d.recent == c.recent && d.lastSeen == c.lastSeen;
  }

  lemma PrunedIsStale(c: Chan, said: seq<Seen>, base: nat, ticks: seq<nat>)
    requires ChanOk(c, said, base) && InOrder(said) && ticks != [] && c.lastSeen + 300 < Sec(Last(ticks))
    ensures Stale(said, ticks)
  {
    forall h | h in said ensures h.sec + 300 < Sec(Last(ticks)) {
      var i :| 0 <= i < |said| && said[i] == h;
    }
  }

  lemma TickKeepsLog(w: World, now: nat)
    requires LogOk(w) && Allowed(w, Tick(now))
    ensures LogOk(DoTick(w, now))
  {
    if w.chan.None? {
      StaleLater(w.said, w.ticks, now);
    } else {
      var c := w.chan.value;
      if Evaluated(c, now).Pruned? {
        PrunedIsStale(c, w.said, w.base, w.ticks + [now]);
      } else {
        EvaluationKeepsRing(c, w.said, w.base, now);
        StaleLater(w.said[..w.base], w.ticks, now);
      }
    }
  }

  // ---- ticks against the moment in progress ----

  lemma QuietSnoc(rates: seq<real>, r: real, b: real)
    ensures TrailingQuiet(rates + [r], b) == if r >= Closing(b) then 0 else TrailingQuiet(rates, b) + 1
  {
    assert (rates + [r])[..|rates|] == rates;
  }

  lemma NeverFiveSnoc(rates: seq<real>, r: real, b: real)
    requires NeverFive(rates, b) && TrailingQuiet(rates + [r], b) < 5
    ensures NeverFive(rates + [r], b)
  {
    var all := rates + [r];
    forall k | 0 <= k <= |all| ensures TrailingQuiet(all[..k], b) < 5 {
      if k <= |rates| {
        assert all[..k] == rates[..k];
      } else {
        assert all[..k] == all;
      }
    }
  }

  lemma PeakSnoc(m: Moment, rates: seq<real>, r: real, ring: seq<MomentMessage>)
    requires PeakOk(m, rates)
    ensures PeakOk(Tracked(m, r, ring), rates + [r])
  {
  }

  lemma ExcerptKept(m: Moment, r: real, ring: seq<MomentMessage>, said: seq<Seen>, openAt: nat)
    requires ExcerptOk(m.excerpt, said, openAt)
    ensures ExcerptOk(Tracked(m, r, ring).excerpt, said, openAt)
  {
    RefreshKeepsOnset(m.excerpt, ring);
    assert OnsetHalf(m.excerpt) == m.excerpt[..4];
  }

  /** One more second of an open moment, whether or not it closes. */
  lemma AdvanceKeeps(c: Chan, now: nat, rate: real, rates: seq<real>, said: seq<Seen>, openAt: nat)
    requires c.Shaped() && c.inSpike && OpenOk(c, rates, said, openAt)
    ensures var t := Advanced(c, now, rate);
            && OpenOk(t.chan, rates + [rate], said, openAt)
            && (t.closed.Some? ==> ClosedOk(Closed(t.closed.value, rates + [rate], openAt), said))
  {
    var t := Advanced(c, now, rate);
    PeakSnoc(c.moment, rates, rate, c.recent);
    ExcerptKept(c.moment, rate, c.recent, said, openAt);
    QuietSnoc(rates, rate, c.baseline);
    if t.chan.inSpike {
      NeverFiveSnoc(rates, rate, c.baseline);
    }
    assert (rates + [rate])[..|rates|] == rates;
    assert rates[..|rates|] == rates;
  }

  /** A moment opens on fifty messages or more, so the eight remembered ones are all there. */
  lemma OpeningKeeps(c: Chan, now: nat, said: seq<Seen>, base: nat)
    requires ChanOk(c, said, base) && !c.inSpike
    ensures var rate := RateOf(c, Sec(now));
            OpenOk(Learned(c, now, rate), [rate], said, |said|)
  {
    var rate := RateOf(c, Sec(now));
    var d := Learned(c, now, rate);
    if d.inSpike {
      TotalIsBounded(c, said[base..], Sec(now));
      assert |said[base..]| >= 50;
      assert said[base..][|said| - base - 8..] == said[|said| - 8..];
      assert c.recent == Messages(said[|said| - 8..]);
      assert c.recent[..4] == Messages(said[|said| - 8..|said| - 4]);
      assert rate >= Closing(d.baseline);
      assert [rate][..0] == [] && [rate][..1] == [rate];
    }
  }

  lemma TickKeepsSpike(w: World, now: nat)
    requires LogOk(w) && SpikeOk(w)
    ensures SpikeOk(DoTick(w, now))
  {
    if w.chan.Some? && Evaluated(w.chan.value, now).Ticked? {
      var c := w.chan.value;
      var rate := RateOf(c, Sec(now));
      if c.inSpike {
        AdvanceKeeps(c, now, rate, w.rates, w.said, w.openAt);
      } else {
        OpeningKeeps(c, now, w.said, w.base);
      }
    }
  }

  lemma {:induction false} RunKeeps(steps: seq<Step>)
    requires Legal(steps)
    ensures LogOk(Exec(steps)) && SpikeOk(Exec(steps))
    decreases |steps|
  {
    if steps != [] {
      var w := Exec(steps[..|steps| - 1]);
      RunKeeps(steps[..|steps| - 1]);
      match steps[|steps| - 1] {
        case Say(at, m) =>
          SayKeepsLog(w, at, m);
          SayKeepsSpike(w, at, m);
        case Tick(now) =>
          TickKeepsLog(w, now);
          TickKeepsSpike(w, now);
      }
    }
  }

  /** Whatever was pruned on the way, a tick's rate is a recount of every message ever seen. */
  lemma RateIsRecount(steps: seq<Step>, now: nat)
    requires Legal(steps) && Allowed(Exec(steps), Tick(now)) && Exec(steps).chan.Some?
    requires UpTo(Exec(steps).said, SecOf, Sec(now))
    ensures RateOf(Exec(steps).chan.value, Sec(now)) == Recount(Exec(steps).said, SecOf, One, Sec(now), 10) as real / 10.0
  {
    RunKeeps(steps);
    var w := Exec(steps);
    StaleLater(w.said[..w.base], w.ticks, now);
    RecountSplits(w.chan.value, w.said, w.base, w.ticks + [now], Sec(now));
  }

  lemma StaleWeighsNothing(log: seq<Seen>, ticks: seq<nat>, now: nat)
    requires Stale(log, ticks) && (ticks != [] ==> Sec(Last(ticks)) == now)
    ensures Sum(log, Inside(SecOf, One, now, 10)) == 0
  {
    var wt := Inside(SecOf, One, now, 10);
    forall h | h in log ensures wt(h) == 0 {
      assert !InWindow(SecOf(h), now, 10);
    }
    SumZero(log, wt);
  }

  /** Stale messages before the channel's state was created do not show in the window. */
  lemma RecountSplits(c: Chan, said: seq<Seen>, base: nat, ticks: seq<nat>, now: nat)
    requires base <= |said| && RingOk(c, said[base..]) && UpTo(said, SecOf, now)
    requires Stale(said[..base], ticks) && (ticks != [] ==> Sec(Last(ticks)) == now)
    ensures RateOf(c, now) == Recount(said, SecOf, One, now, 10) as real / 10.0
  {
    assert said == said[..base] + said[base..];
    StaleWeighsNothing(said[..base], ticks, now);
    SumConcat(said[..base], said[base..], Inside(SecOf, One, now, 10));
    TotalIsRecount(c, said[base..], now);
  }

  // ---- order and cooldown ----

  ghost predicate EndedBy(closed: seq<Closed>, t: nat) {
    forall i :: 0 <= i < |closed| ==> closed[i].moment.endedAt <= t
  }

  /** No two persisted moments overlap, and they are listed in order. */
  ghost predicate NoOverlap(closed: seq<Closed>) {
    forall i, j :: 0 <= i < j < |closed| ==> closed[i].moment.endedAt <= closed[j].moment.startedAt
  }

  ghost predicate OrderOk(w: World) {
    && NoOverlap(w.closed)
    && (w.closed != [] ==> w.ticks != [] && EndedBy(w.closed, Last(w.ticks)))
    && (w.chan.Some? && w.chan.value.inSpike ==>
          && w.ticks != [] && w.chan.value.moment.startedAt <= Last(w.ticks)
          && EndedBy(w.closed, w.chan.value.moment.startedAt))
  }

  lemma TickKeepsOrder(w: World, now: nat)
    requires Shaped(w) && OrderOk(w) && Allowed(w, Tick(now))
    ensures OrderOk(DoTick(w, now))
  {
    var v := DoTick(w, now);
    assert Last(v.ticks) == now;
  }

  lemma {:induction false} RunKeepsOrder(steps: seq<Step>)
    requires Legal(steps)
    ensures OrderOk(Exec(steps))
    decreases |steps|
  {
    if steps != [] {
      RunKeepsOrder(steps[..|steps| - 1]);
      if steps[|steps| - 1].Tick? {
        TickKeepsOrder(Exec(steps[..|steps| - 1]), steps[|steps| - 1].now);
      }
    }
  }

  /**
    Every persisted moment of every run: moments do not overlap; each one's peak is the largest
    rate of its ticks and at least max(5, 3 * baseline); it ended at its first five quiet ticks in a
    row; its excerpt has at most eight entries and keeps the first four messages of the onset.
   */
  lemma MomentsAreFaithful(steps: seq<Step>)
    requires Legal(steps)
    ensures NoOverlap(Exec(steps).closed) && AllClosedOk(Exec(steps).closed, Exec(steps).said)
    ensures forall x :: x in Exec(steps).closed ==> x.moment.peakRate >= 5.0 && x.moment.peakRate >= 3.0 * x.moment.baseline
  {
    RunKeeps(steps);
    RunKeepsOrder(steps);
    forall x | x in Exec(steps).closed
      ensures x.moment.peakRate >= 5.0 && x.moment.peakRate >= 3.0 * x.moment.baseline
    {
      assert ClosedOk(x, Exec(steps).said);
      assert x.rates[0] in x.rates;
    }
  }

  // ---- the baseline ----

  function Decay(n: nat): real {
    if n == 0 then 1.0 else 0.98 * Decay(n - 1)
  }

  /** The rates, oldest first, each weighing 0.02 and 0.98 times as much for every later one. */
  function Weighed(rates: seq<real>): real {
    if rates == [] then 0.0 else 0.02 * (Decay(|rates| - 1) * rates[0]) + Weighed(rates[1..])
  }

  lemma {:induction false} WeighedSnoc(rates: seq<real>, r: real)
    ensures Weighed(rates + [r]) == 0.98 * Weighed(rates) + 0.02 * r
  {
    if rates == [] {
      assert rates + [r] == [r] && [r][1..] == [];
      assert Decay(0) * r == r;
    } else {
      WeighedSnoc(rates[1..], r);
      assert (rates + [r])[0] == rates[0] && (rates + [r])[1..] == rates[1..] + [r];
      Scaled(Decay(|rates| - 1), rates[0]);
    }
  }

  lemma Scaled(d: real, x: real)
    ensures (0.98 * d) * x == 0.98 * (d * x)
  {
  }

  /** The rates of the ticks since the channel's state was created at which no moment was open. */
  ghost function CalmRates(steps: seq<Step>): seq<real>
    decreases |steps|
  {
    if steps == [] then []
    else
      var init, w, s := steps[..|steps| - 1], Exec(steps[..|steps| - 1]), steps[|steps| - 1];
      if w.chan.None? then []
      else
        match s
        case Say(_, _) => CalmRates(init)
        case Tick(now) =>
          if Sec(now) - w.chan.value.lastSeen > 300 then []
          else if w.chan.value.inSpike then CalmRates(init)
          else CalmRates(init) + [RateOf(w.chan.value, Sec(now))]
  }

  /** In every run the baseline is the weighed sum of the calm rates: open moments never move it. */
  lemma {:induction false} BaselineIsWeighed(steps: seq<Step>)
    ensures Exec(steps).chan.Some? ==> Exec(steps).chan.value.baseline == Weighed(CalmRates(steps))
    decreases |steps|
  {
    if steps != [] {
      var init, s := steps[..|steps| - 1], steps[|steps| - 1];
      BaselineIsWeighed(init);
      var w := Exec(init);
      if s.Tick? && w.chan.Some? {
        WeighedSnoc(CalmRates(init), RateOf(w.chan.value, Sec(s.now)));
      }
    }
  }

  // ---- paced runs ----

  predicate Gap(w: World, s: Step, g: nat, d: nat) {
    s.Tick? && w.ticks != [] ==> Last(w.ticks) + g <= s.now && Sec(s.now) <= Sec(Last(w.ticks)) + d
  }

  /** A legal run whose ticks are at least `g` nanoseconds and at most `d` whole seconds apart. */
  ghost predicate Paced(steps: seq<Step>, g: nat, d: nat)
    decreases |steps|
  {
    steps != [] ==>
      && Paced(steps[..|steps| - 1], g, d)
      && Allowed(Exec(steps[..|steps| - 1]), steps[|steps| - 1])
      && Gap(Exec(steps[..|steps| - 1]), steps[|steps| - 1], g, d)
  }

  lemma {:induction false} PacedIsLegal(steps: seq<Step>, g: nat, d: nat)
    requires Paced(steps, g, d)
    ensures Legal(steps)
    decreases |steps|
  {
    if steps != [] {
      PacedIsLegal(steps[..|steps| - 1], g, d);
    }
  }

  lemma {:induction false} PacedWider(steps: seq<Step>, g: nat, d: nat, g': nat, d': nat)
    requires Paced(steps, g, d) && g' <= g && d <= d'
    ensures Paced(steps, g', d')
    decreases |steps|
  {
    if steps != [] {
      PacedWider(steps[..|steps| - 1], g, d, g', d');
    }
  }

  predicate IsOpen(w: World) {
    w.chan.Some? && w.chan.value.inSpike
  }

  /** `q` gaps of at most `d`. */
  function Lag(q: nat, d: nat): nat {
    if q == 0 then 0 else Lag(q - 1, d) + d
  }

  /** How far ticks can be ahead of the last message while a moment is open. */
  ghost predicate Near(c: Chan, last: nat, d: nat) {
    c.quietSecs < 5 && Sec(last) <= c.lastSeen + 9 + Lag(c.quietSecs, d)
  }

  ghost predicate NearOk(w: World, d: nat) {
    IsOpen(w) ==> w.ticks != [] && Near(w.chan.value, Last(w.ticks), d)
  }

  lemma LagBound(q: nat, d: nat)
    requires q < 5
    ensures Lag(q, d) <= 4 * d
  {
    assert Lag(4, d) == Lag(3, d) + d && Lag(3, d) == Lag(2, d) + d;
    assert Lag(2, d) == Lag(1, d) + d && Lag(1, d) == d;
  }

  /** A rate of three or more means the channel spoke within the last ten seconds. */
  lemma LoudMeansRecent(c: Chan, said: seq<Seen>, base: nat, now: nat)
    requires ChanOk(c, said, base) && InOrder(said) && RateOf(c, now) >= 3.0
    ensures now <= c.lastSeen + 9
  {
    var h := TotalNeedsAMessage(c, said[base..], now, 10);
    var i :| 0 <= i < |said[base..]| && said[base..][i] == h;
    assert said[base + i] == h;
  }

  /** An open moment's channel is never pruned, and a quiet second costs at most one gap. */
  lemma OpenIsSpared(w: World, now: nat, d: nat)
    requires LogOk(w) && NearOk(w, d) && IsOpen(w) && Gap(w, Tick(now), 0, d) && d <= 58
    ensures Sec(now) <= w.chan.value.lastSeen + 9 + Lag(w.chan.value.quietSecs + 1, d)
    ensures Evaluated(w.chan.value, now).Ticked?
  {
    LagBound(w.chan.value.quietSecs, d);
  }

  lemma SpikeStaysNear(c: Chan, said: seq<Seen>, base: nat, now: nat, d: nat)
    requires ChanOk(c, said, base) && InOrder(said) && c.inSpike && c.quietSecs < 5
    requires Sec(now) <= c.lastSeen + 9 + Lag(c.quietSecs + 1, d)
    ensures var t := Advanced(c, now, RateOf(c, Sec(now)));
            t.chan.inSpike ==> Near(t.chan, now, d)
  {
    if RateOf(c, Sec(now)) >= Closing(c.baseline) {
      LoudMeansRecent(c, said, base, Sec(now));
    }
  }

  lemma OpeningIsNear(c: Chan, said: seq<Seen>, base: nat, now: nat, d: nat)
    requires ChanOk(c, said, base) && InOrder(said) && !c.inSpike
    ensures var r := Learned(c, now, RateOf(c, Sec(now)));
            r.inSpike ==> Near(r, now, d)
  {
    if RateOf(c, Sec(now)) >= 3.0 {
      LoudMeansRecent(c, said, base, Sec(now));
    }
  }

  lemma TickKeepsNear(w: World, now: nat, d: nat)
    requires LogOk(w) && NearOk(w, d) && Gap(w, Tick(now), 0, d) && d <= 58
    ensures NearOk(DoTick(w, now), d)
  {
    if w.chan.Some? && Evaluated(w.chan.value, now).Ticked? {
      var c := w.chan.value;
      if c.inSpike {
        OpenIsSpared(w, now, d);
        SpikeStaysNear(c, w.said, w.base, now, d);
      } else {
        OpeningIsNear(c, w.said, w.base, now, d);
      }
    }
  }

  lemma {:induction false} PacedKeepsNear(steps: seq<Step>, g: nat, d: nat)
    requires Paced(steps, g, d) && d <= 58
    ensures LogOk(Exec(steps)) && OrderOk(Exec(steps)) && NearOk(Exec(steps), d)
    decreases |steps|
  {
    PacedIsLegal(steps, g, d);
    RunKeeps(steps);
    RunKeepsOrder(steps);
    if steps != [] {
      var init := steps[..|steps| - 1];
      PacedKeepsNear(init, g, d);
      if steps[|steps| - 1].Tick? {
        TickKeepsNear(Exec(init), steps[|steps| - 1].now, d);
      }
    }
  }

  /** No tick of the run discards a moment in progress by pruning its channel. */
  ghost predicate PruningSpares(w: World, now: nat)
    requires Shaped(w)
  {
    IsOpen(w) ==> DoTick(w, now).chan.Some?
  }

  /** With ticks at most 58 seconds apart idle pruning never discards a moment in progress. */
  lemma PruningSparesOpenMoments(steps: seq<Step>, now: nat, d: nat)
    requires Paced(steps + [Tick(now)], 0, d) && d <= 58
    ensures PruningSpares(Exec(steps), now)
  {
    assert (steps + [Tick(now)])[..|steps|] == steps;
    PacedKeepsNear(steps, 0, d);
    if IsOpen(Exec(steps)) {
      OpenIsSpared(Exec(steps), now, d);
    }
  }

  // ---- cooldown ----

  ghost predicate CooledBy(closed: seq<Closed>, s: nat) {
    forall i :: 0 <= i < |closed| ==> Sec(closed[i].moment.endedAt) + 30 <= s
  }

  /** Each moment starts, in whole seconds, at least thirty after every earlier one ended. */
  ghost predicate CooledDown(closed: seq<Closed>) {
    forall i, j :: 0 <= i < j < |closed| ==> Sec(closed[i].moment.endedAt) + 30 <= Sec(closed[j].moment.startedAt)
  }

  /** The same, with the moment in progress. */
  ghost predicate CooldownKept(w: World) {
    CooledDown(w.closed) && (IsOpen(w) ==> CooledBy(w.closed, Sec(w.chan.value.moment.startedAt)))
  }

  /** Every cooldown is over, or the channel still remembers it and cannot be pruned before its end. */
  ghost predicate Waiting(w: World) {
    if w.chan.Some? && !w.chan.value.inSpike then
      && w.chan.value.cooldownUntil <= w.chan.value.lastSeen + 299
      && (w.closed != [] ==>
            w.ticks != [] && (CooledBy(w.closed, Sec(Last(w.ticks))) || CooledBy(w.closed, w.chan.value.cooldownUntil)))
    else w.chan.None? && w.closed != [] ==> w.ticks != [] && CooledBy(w.closed, Sec(Last(w.ticks)))
  }

  lemma SayKeepsWaiting(w: World, at: nat, m: MomentMessage)
    requires LogOk(w) && Waiting(w) && CooldownKept(w) && Allowed(w, Say(at, m))
    ensures Waiting(DoSay(w, at, m)) && CooldownKept(DoSay(w, at, m))
  {
  }

  lemma CooledLater(closed: seq<Closed>, a: nat, b: nat)
    requires CooledBy(closed, a) && a <= b
    ensures CooledBy(closed, b)
  {
  }

  /** A calm channel's tick: pruned, opened or neither. */
  lemma CalmKeepsWaiting(w: World, now: nat)
    requires LogOk(w) && Waiting(w) && CooldownKept(w) && Allowed(w, Tick(now))
    requires w.chan.Some? && !w.chan.value.inSpike
    ensures Waiting(DoTick(w, now)) && CooldownKept(DoTick(w, now))
  {
    var c := w.chan.value;
    var t := Evaluated(c, now);
    if w.closed != [] {
      SecMonotone(Last(w.ticks), now);
      if CooledBy(w.closed, Sec(Last(w.ticks))) {
        CooledLater(w.closed, Sec(Last(w.ticks)), Sec(now));
      } else if t.Pruned? || t.chan.inSpike {
        CooledLater(w.closed, c.cooldownUntil, Sec(now));
      }
    }
  }

  lemma SpikeKeepsWaiting(w: World, now: nat, d: nat)
    requires LogOk(w) && OrderOk(w) && NearOk(w, d) && CooldownKept(w) && IsOpen(w)
    requires Allowed(w, Tick(now)) && Gap(w, Tick(now), 0, d) && d <= 52
    ensures Waiting(DoTick(w, now)) && CooldownKept(DoTick(w, now))
  {
    var c := w.chan.value;
    OpenIsSpared(w, now, d);
    LagBound(c.quietSecs, d);
    var t := Evaluated(c, now);
    if !t.chan.inSpike && t.closed.None? {
      SecMonotone(c.moment.startedAt, now);
      CooledLater(w.closed, Sec(c.moment.startedAt), Sec(now) + 30);
    }
  }

  lemma TickKeepsWaiting(w: World, now: nat, d: nat)
    requires LogOk(w) && OrderOk(w) && NearOk(w, d) && Waiting(w) && CooldownKept(w)
    requires Allowed(w, Tick(now)) && Gap(w, Tick(now), 0, d) && d <= 52
    ensures Waiting(DoTick(w, now)) && CooldownKept(DoTick(w, now))
  {
    if w.chan.None? {
      if w.closed != [] {
        SecMonotone(Last(w.ticks), now);
        CooledLater(w.closed, Sec(Last(w.ticks)), Sec(now));
      }
    } else if w.chan.value.inSpike {
      SpikeKeepsWaiting(w, now, d);
    } else {
      CalmKeepsWaiting(w, now);
    }
  }

  /** With ticks at most 52 seconds apart the cooldown holds over the whole run, also across pruning. */
  lemma {:induction false} CooldownHolds(steps: seq<Step>, d: nat)
    requires Paced(steps, 0, d) && d <= 52
    ensures Waiting(Exec(steps)) && CooldownKept(Exec(steps))
    decreases |steps|
  {
    if steps != [] {
      var init := steps[..|steps| - 1];
      CooldownHolds(init, d);
      PacedKeepsNear(init, 0, d);
      match steps[|steps| - 1] {
        case Say(at, m) => SayKeepsWaiting(Exec(init), at, m);
        case Tick(now) => TickKeepsWaiting(Exec(init), now, d);
      }
    }
  }

  // ---- the gap on the clock ----

  /** Moments start and end at ticks. */
  ghost predicate AtTicks(w: World) {
    && (forall i :: 0 <= i < |w.closed| ==>
          w.closed[i].moment.startedAt in w.ticks && w.closed[i].moment.endedAt in w.ticks)
    && (IsOpen(w) ==> w.chan.value.moment.startedAt in w.ticks)
  }

  lemma TickKeepsAtTicks(w: World, now: nat)
    requires Shaped(w) && AtTicks(w)
    ensures AtTicks(DoTick(w, now))
  {
    var v := DoTick(w, now);
    assert v.ticks == w.ticks + [now];
    assert now in v.ticks && forall t :: t in w.ticks ==> t in v.ticks;
  }

  lemma {:induction false} RunAtTicks(steps: seq<Step>)
    ensures AtTicks(Exec(steps))
    decreases |steps|
  {
    if steps != [] {
      RunAtTicks(steps[..|steps| - 1]);
      if steps[|steps| - 1].Tick? {
        TickKeepsAtTicks(Exec(steps[..|steps| - 1]), steps[|steps| - 1].now);
      }
    }
  }

  function SubSecond(t: nat): nat {
    t % 1_000_000_000
  }

  /** The ticks' places within their seconds differ by at most `j` nanoseconds. */
  ghost predicate Jitter(ticks: seq<nat>, j: nat) {
    forall a, b :: a in ticks && b in ticks ==> SubSecond(a) <= SubSecond(b) + j
  }

  ghost predicate RestedBy(closed: seq<Closed>, t: nat) {
    forall i :: 0 <= i < |closed| ==> closed[i].moment.endedAt + 30_000_000_000 <= t
  }

  /** Each moment, the one in progress included, starts thirty seconds or more after every earlier one ended. */
  ghost predicate RestKept(w: World) {
    && (forall i, j :: 0 <= i < j < |w.closed|
          ==> w.closed[i].moment.endedAt + 30_000_000_000 <= w.closed[j].moment.startedAt)
    && (IsOpen(w) ==> RestedBy(w.closed, w.chan.value.moment.startedAt))
  }

  lemma SameSubSecond(end: nat, next: nat)
    requires Sec(end) + 30 <= Sec(next) && SubSecond(end) <= SubSecond(next)
    ensures end + 30_000_000_000 <= next
  {
  }

  /** A ticker that always fires at the same place in the second keeps thirty seconds on the clock. */
  lemma SteadyTicksKeepTheRest(steps: seq<Step>, d: nat)
    requires Paced(steps, 0, d) && d <= 52 && Jitter(Exec(steps).ticks, 0)
    ensures RestKept(Exec(steps))
  {
    var w := Exec(steps);
    CooldownHolds(steps, d);
    RunAtTicks(steps);
    forall i, j | 0 <= i < j < |w.closed|
      ensures w.closed[i].moment.endedAt + 30_000_000_000 <= w.closed[j].moment.startedAt
    {
      SameSubSecond(w.closed[i].moment.endedAt, w.closed[j].moment.startedAt);
    }
    if IsOpen(w) {
      forall i | 0 <= i < |w.closed|
        ensures w.closed[i].moment.endedAt + 30_000_000_000 <= w.chan.value.moment.startedAt
      {
        SameSubSecond(w.closed[i].moment.endedAt, w.chan.value.moment.startedAt);
      }
    }
  }

  /** With any ticker the gap on the clock is short of thirty seconds by no more than the jitter. */
  lemma GapOnTheClock(steps: seq<Step>, jitter: nat, i: nat, j: nat)
    requires Paced(steps, 0, 52) && Jitter(Exec(steps).ticks, jitter) && i < j < |Exec(steps).closed|
    ensures var end, next := Exec(steps).closed[i].moment.endedAt, Exec(steps).closed[j].moment.startedAt;
            end + 30_000_000_000 <= next + jitter && end + 29_000_000_000 < next
  {
    CooldownHolds(steps, 52);
    RunAtTicks(steps);
    SplitGap(Exec(steps).closed[i].moment.endedAt, Exec(steps).closed[j].moment.startedAt, jitter);
  }

  lemma SplitGap(end: nat, next: nat, jitter: nat)
    requires Sec(end) + 30 <= Sec(next) && SubSecond(end) <= SubSecond(next) + jitter
    ensures end + 30_000_000_000 <= next + jitter && end + 29_000_000_000 < next
  {
  }

  // ---- nothing opened is lost ----

  /** The moments that opened are the persisted ones, in order, and the one in progress. */
  ghost predicate Conserved(w: World) {
    && |w.starts| == |w.closed| + (if IsOpen(w) then 1 else 0)
    && (forall i :: 0 <= i < |w.closed| ==> w.starts[i] == w.closed[i].moment.startedAt)
    && (IsOpen(w) ==> w.starts[|w.closed|] == w.chan.value.moment.startedAt)
  }

  ghost predicate OldEnough(w: World) {
    IsOpen(w) ==>
      && w.ticks != []
      && Last(w.ticks) >= w.chan.value.moment.startedAt + 600_000_000 * w.chan.value.quietSecs
  }

  lemma SpikeConserves(w: World, now: nat)
    requires Shaped(w) && Conserved(w) && OldEnough(w) && IsOpen(w) && Last(w.ticks) + 600_000_000 <= now
    requires w.chan.value.quietSecs < 5 && Evaluated(w.chan.value, now).Ticked?
    ensures Conserved(DoTick(w, now)) && OldEnough(DoTick(w, now))
  {
    var c := w.chan.value;
    var t := Evaluated(c, now);
    assert t == Advanced(c, now, RateOf(c, Sec(now)));
    assert now >= c.moment.startedAt + 600_000_000 * (c.quietSecs + 1);
    assert t.chan.moment.startedAt == c.moment.startedAt;
    assert !t.chan.inSpike ==> t.closed.Some?;
  }

  lemma CalmConserves(w: World, now: nat)
    requires Shaped(w) && Conserved(w) && !IsOpen(w)
    ensures Conserved(DoTick(w, now)) && OldEnough(DoTick(w, now))
  {
  }

  /**
    With ticks at least 0.6 and at most 58 seconds apart no moment is discarded, as a blip or by
    pruning: whatever opened was persisted exactly once, in order, or is still in progress.
   */
  lemma {:induction false} NoMomentIsLost(steps: seq<Step>, g: nat, d: nat)
    requires Paced(steps, g, d) && g >= 600_000_000 && d <= 58
    ensures Conserved(Exec(steps)) && OldEnough(Exec(steps))
    decreases |steps|
  {
    if steps != [] {
      var init := steps[..|steps| - 1];
      NoMomentIsLost(init, g, d);
      PacedKeepsNear(init, g, d);
      if steps[|steps| - 1].Tick? {
        var w, now := Exec(init), steps[|steps| - 1].now;
        if IsOpen(w) {
          OpenIsSpared(w, now, d);
          SpikeConserves(w, now);
        } else {
          CalmConserves(w, now);
        }
      }
    }
  }
}
