/** Concrete runs of the spike detector, which show that the bounds on the ticker are exact. */
module MomentCases {
  import opened Windows
  import opened Moments
  import opened MomentRuns

  const HI: MomentMessage := MomentMessage("a", "hi", 0)

  /** `n` messages at the same instant. */
  function Chorus(n: nat, at: nat): seq<Step> {
    if n == 0 then [] else Chorus(n - 1, at) + [Say(at, HI)]
  }

  function Echo(n: nat, s: nat): seq<Seen> {
    seq(n, _ => Seen(s, HI))
  }

  /** `v` is `w` after `n` messages at second `s`. */
  ghost predicate Joined(w: World, v: World, n: nat, s: nat) {
    && v.said == w.said + Echo(n, s) && v.ticks == w.ticks && v.closed == w.closed && v.starts == w.starts
    && v.chan.Some? && v.chan.value.lastSeen == s
    && SameSpike(v.chan.value, if w.chan.Some? then w.chan.value else NewChan())
  }

  /** What a message cannot change. */
  ghost predicate SameSpike(a: Chan, b: Chan) {
    && a.baseline == b.baseline && a.inSpike == b.inSpike && a.moment == b.moment
    && a.quietSecs == b.quietSecs && a.cooldownUntil == b.cooldownUntil
  }

  lemma PacedSnoc(steps: seq<Step>, s: Step, g: nat, d: nat)
    requires Paced(steps, g, d) && Allowed(Exec(steps), s) && Gap(Exec(steps), s, g, d)
    ensures Paced(steps + [s], g, d) && Exec(steps + [s]) == Do(Exec(steps), s)
  {
    assert (steps + [s])[..|steps|] == steps;
  }

  lemma FirstJoins(w: World, at: nat)
    requires Shaped(w)
    ensures Joined(w, DoSay(w, at, HI), 1, Sec(at))
  {
    assert Echo(1, Sec(at)) == [Seen(Sec(at), HI)];
  }

  lemma OneMoreJoins(w: World, v: World, n: nat, at: nat)
    requires Shaped(v) && Joined(w, v, n, Sec(at))
    ensures Joined(w, DoSay(v, at, HI), n + 1, Sec(at))
  {
    assert Echo(n + 1, Sec(at)) == Echo(n, Sec(at)) + [Seen(Sec(at), HI)];
  }

  lemma JoinedAllows(w: World, v: World, n: nat, at: nat)
    requires Joined(w, v, n, Sec(at)) && n > 0
    ensures Allowed(v, Say(at, HI))
  {
    assert v.said[|v.said| - 1] == Seen(Sec(at), HI);
  }

  lemma {:induction false} ChorusRuns(steps: seq<Step>, n: nat, at: nat, g: nat, d: nat)
    requires Paced(steps, g, d) && n > 0 && Allowed(Exec(steps), Say(at, HI))
    ensures Paced(steps + Chorus(n, at), g, d) && Joined(Exec(steps), Exec(steps + Chorus(n, at)), n, Sec(at))
  {
    var init := steps + Chorus(n - 1, at);
    assert steps + Chorus(n, at) == init + [Say(at, HI)];
    if n == 1 {
      assert init == steps;
      FirstJoins(Exec(steps), at);
    } else {
      ChorusRuns(steps, n - 1, at, g, d);
      JoinedAllows(Exec(steps), Exec(init), n - 1, at);
      OneMoreJoins(Exec(steps), Exec(init), n - 1, at);
    }
    PacedSnoc(init, Say(at, HI), g, d);
  }

  lemma {:induction false} EchoWeighs(n: nat, s: nat, now: nat)
    ensures Sum(Echo(n, s), Inside(SecOf, One, now, 10)) == if InWindow(s, now, 10) then n else 0
  {
    if n > 0 {
      EchoWeighs(n - 1, s, now);
      assert Echo(n, s)[..n - 1] == Echo(n - 1, s);
      var h := Echo(n, s)[n - 1];
      assert SecOf(h) == s && One(h) == 1;
    }
  }

  lemma LoudRate(steps: seq<Step>, past: seq<Seen>, at: nat, now: nat)
    requires Legal(steps) && Allowed(Exec(steps), Tick(now)) && Exec(steps).chan.Some?
    requires Exec(steps).said == past + Echo(50, at)
    requires (forall h :: h in past ==> h.sec + 10 <= Sec(now)) && at <= Sec(now) < at + 10
    ensures RateOf(Exec(steps).chan.value, Sec(now)) == 5.0
  {
    var wt := Inside(SecOf, One, Sec(now), 10);
    EchoWeighs(50, at, Sec(now));
    SumZero(past, wt);
    SumConcat(past, Echo(50, at), wt);
    RateIsRecount(steps, now);
  }

  /** Fifty messages within ten seconds open a moment on a channel out of cooldown with a small baseline. */
  lemma LoudTick(steps: seq<Step>, past: seq<Seen>, at: nat, now: nat, g: nat, d: nat)
    requires Paced(steps, g, d) && Allowed(Exec(steps), Tick(now)) && Gap(Exec(steps), Tick(now), g, d)
    requires (forall h :: h in past ==> h.sec + 10 <= Sec(now)) && at <= Sec(now) < at + 10
    requires var w := Exec(steps);
             && w.said == past + Echo(50, at)
             && w.chan.Some? && !w.chan.value.inSpike && w.chan.value.lastSeen == at
             && 0.0 <= w.chan.value.baseline <= 1.0 && w.chan.value.cooldownUntil <= Sec(now)
    ensures Paced(steps + [Tick(now)], g, d)
    ensures var w, v := Exec(steps), Exec(steps + [Tick(now)]);
            && IsOpen(v) && v.chan.value.quietSecs == 0 && v.chan.value.lastSeen == at
            && v.chan.value.moment.startedAt == now && v.chan.value.baseline == w.chan.value.baseline * 0.98 + 0.1
            && v.said == w.said && v.ticks == w.ticks + [now] && v.closed == w.closed && v.starts == w.starts + [now]
  {
    PacedIsLegal(steps, g, d);
    LoudRate(steps, past, at, now);
    PacedSnoc(steps, Tick(now), g, d);
  }

  /** The first moment, opened at `t0` by fifty messages at second 1, after `q` quiet ticks. */
  ghost predicate AtQuiet(w: World, q: nat, ticks: seq<nat>, t0: nat) {
    && w.said == Echo(50, 1) && w.ticks == ticks != [] && w.starts == [t0] && w.closed == []
    && IsOpen(w) && w.chan.value.quietSecs == q && w.chan.value.lastSeen == 1
    && w.chan.value.baseline == 0.1 && w.chan.value.moment.startedAt == t0
  }

  /** That moment closed, persisted if it lasted three seconds. */
  ghost predicate AtEnd(w: World, ticks: seq<nat>, t0: nat) {
    && w.said == Echo(50, 1) && w.ticks == ticks != [] && w.starts == [t0]
    && (if Last(ticks) - t0 < 3_000_000_000 then w.closed == []
        else |w.closed| == 1 && w.closed[0].moment.endedAt == Last(ticks))
    && w.chan.Some? && !w.chan.value.inSpike && w.chan.value.lastSeen == 1
    && w.chan.value.baseline == 0.1 && w.chan.value.cooldownUntil == Sec(Last(ticks)) + 30
  }

  lemma FirstMoment(t0: nat, g: nat, d: nat) returns (steps: seq<Step>)
    requires 1 <= Sec(t0) < 11
    ensures Paced(steps, g, d) && AtQuiet(Exec(steps), 0, [t0], t0)
  {
    steps := [] + Chorus(50, 1_000_000_000);
    ChorusRuns([], 50, 1_000_000_000, g, d);
    assert Exec([]).said + Echo(50, 1) == Echo(50, 1);
    LoudTick(steps, [], 1, t0, g, d);
    steps := steps + [Tick(t0)];
  }

  /** Ten seconds after the last message the rate is below three. */
  lemma QuietRate(steps: seq<Step>, now: nat)
    requires Legal(steps) && Exec(steps).chan.Some? && Exec(steps).chan.value.lastSeen + 10 <= Sec(now)
    ensures RateOf(Exec(steps).chan.value, Sec(now)) < 3.0
  {
    RunKeeps(steps);
    var w := Exec(steps);
    if RateOf(w.chan.value, Sec(now)) >= 3.0 {
      LoudMeansRecent(w.chan.value, w.said, w.base, Sec(now));
    }
  }

  lemma QuietTick(steps: seq<Step>, q: nat, ticks: seq<nat>, t0: nat, now: nat, g: nat, d: nat)
    requires Paced(steps, g, d) && AtQuiet(Exec(steps), q, ticks, t0) && q < 5
    requires Last(ticks) + g <= now && Sec(now) <= Sec(Last(ticks)) + d && 11 <= Sec(now) <= 301
    ensures Paced(steps + [Tick(now)], g, d)
    ensures if q < 4 then AtQuiet(Exec(steps + [Tick(now)]), q + 1, ticks + [now], t0)
            else AtEnd(Exec(steps + [Tick(now)]), ticks + [now], t0)
  {
    PacedIsLegal(steps, g, d);
    QuietRate(steps, now);
    PacedSnoc(steps, Tick(now), g, d);
  }

  lemma TwoQuietTicks(before: seq<Step>, q: nat, ticks: seq<nat>, t0: nat, a: nat, b: nat, g: nat, d: nat)
      returns (steps: seq<Step>)
    requires Paced(before, g, d) && AtQuiet(Exec(before), q, ticks, t0) && q < 3
    requires Last(ticks) + g <= a && a + g <= b && 11 <= Sec(a) && Sec(b) <= 301
    requires Sec(a) <= Sec(Last(ticks)) + d && Sec(b) <= Sec(a) + d
    ensures Paced(steps, g, d) && AtQuiet(Exec(steps), q + 2, ticks + [a] + [b], t0)
  {
    SecMonotone(a, b);
    QuietTick(before, q, ticks, t0, a, g, d);
    QuietTick(before + [Tick(a)], q + 1, ticks + [a], t0, b, g, d);
    steps := before + [Tick(a)] + [Tick(b)];
  }

  /** Four quiet ticks in a row. */
  lemma FourQuietTicks(t0: nat, a: nat, b: nat, c: nat, e: nat, g: nat, d: nat) returns (steps: seq<Step>)
    requires 1 <= Sec(t0) < 11 <= Sec(a) && Sec(e) <= 301 && t0 + g <= a && a + g <= b && b + g <= c && c + g <= e
    requires Sec(a) <= Sec(t0) + d && Sec(b) <= Sec(a) + d && Sec(c) <= Sec(b) + d && Sec(e) <= Sec(c) + d
    ensures Paced(steps, g, d) && AtQuiet(Exec(steps), 4, FiveTicks(t0, a, b, c, e), t0)
  {
    SecMonotone(a, b);
    SecMonotone(b, c);
    SecMonotone(c, e);
    steps := FirstMoment(t0, g, d);
    steps := TwoQuietTicks(steps, 0, [t0], t0, a, b, g, d);
    steps := TwoQuietTicks(steps, 2, [t0] + [a] + [b], t0, c, e, g, d);
  }

  function FiveTicks(t0: nat, a: nat, b: nat, c: nat, e: nat): (ticks: seq<nat>)
    ensures ticks != [] && Last(ticks) == e
  {
    [t0] + [a] + [b] + [c] + [e]
  }

  // ---- the edges ----

  /**
    The first moment ends `e` nanoseconds into second 17; fifty more messages and a tick at the very
    start of second 47, when the cooldown is over, open another one 30 seconds less `e` later.
   */
  lemma GapUnderThirtySeconds(e: nat) returns (steps: seq<Step>)
    requires e < 1_000_000_000
    ensures Paced(steps, 600_000_000, 52) && Jitter(Exec(steps).ticks, e)
    ensures var w := Exec(steps);
            && |w.closed| == 1 && IsOpen(w)
            && w.chan.value.moment.startedAt + e == w.closed[0].moment.endedAt + 30_000_000_000
  {
    var first, ticks := EndsAt(e);
    steps := OpensAt47(first, ticks, e);
  }

  lemma OpensAt47(first: seq<Step>, ticks: seq<nat>, e: nat) returns (steps: seq<Step>)
    requires e < 1_000_000_000 && ticks != [] && Last(ticks) == 17_000_000_000 + e
    requires Paced(first, 600_000_000, 52) && AtEnd(Exec(first), ticks, 10_000_000_000)
    ensures Paced(steps, 600_000_000, 52) && Exec(steps).ticks == ticks + [47_000_000_000]
    ensures var w := Exec(steps);
            && |w.closed| == 1 && IsOpen(w)
            && w.chan.value.moment.startedAt + e == w.closed[0].moment.endedAt + 30_000_000_000
  {
    assert Sec(17_000_000_000 + e) == 17;
    steps := SecondFlood(first, 47_000_000_000, 47_000_000_000, 600_000_000, 52);
  }

  /** Ticks at the start of their seconds. */
  function Evenly(): (ticks: seq<nat>)
    ensures ticks != [] && Last(ticks) == 16_000_000_000
  {
    FiveTicks(10_000_000_000, 13_000_000_000, 14_000_000_000, 15_000_000_000, 16_000_000_000)
  }

  lemma EndsAt(e: nat) returns (steps: seq<Step>, ticks: seq<nat>)
    requires e < 1_000_000_000
    ensures Paced(steps, 600_000_000, 52) && AtEnd(Exec(steps), ticks, 10_000_000_000)
    ensures ticks != [] && Last(ticks) == 17_000_000_000 + e && Jitter(ticks + [47_000_000_000], e)
  {
    EvenTicks(e);
    var end := 17_000_000_000 + e;
    assert Sec(end) == 17;
    ticks := Evenly() + [end];
    steps := FourQuietTicks(10_000_000_000, 13_000_000_000, 14_000_000_000, 15_000_000_000, 16_000_000_000, 600_000_000, 52);
    QuietTick(steps, 4, Evenly(), 10_000_000_000, end, 600_000_000, 52);
    steps := steps + [Tick(end)];
  }

  lemma EvenTicks(e: nat)
    requires e < 1_000_000_000
    ensures Jitter(Evenly() + [17_000_000_000 + e] + [47_000_000_000], e)
  {
    var ticks := Evenly() + [17_000_000_000 + e] + [47_000_000_000];
    forall t | t in ticks ensures SubSecond(t) <= e {
      assert t in Evenly() ==> SubSecond(t) == 0;
    }
  }

  /** After the first moment, fifty messages at `at` and a tick at `now` open a second one. */
  lemma SecondFlood(before: seq<Step>, at: nat, now: nat, g: nat, d: nat) returns (steps: seq<Step>)
    requires Paced(before, g, d)
    requires var w := Exec(before);
             && w.said == Echo(50, 1) && w.ticks != [] && Last(w.ticks) + g <= now && Sec(now) <= Sec(Last(w.ticks)) + d
             && (w.chan.Some? ==> !w.chan.value.inSpike && w.chan.value.baseline == 0.1 && w.chan.value.cooldownUntil <= Sec(now))
    requires 11 <= Sec(at) <= Sec(now) < Sec(at) + 10
    ensures Paced(steps, g, d)
    ensures var w, v := Exec(before), Exec(steps);
            && v.starts == w.starts + [now] && v.ticks == w.ticks + [now] && v.closed == w.closed && IsOpen(v) && v.chan.value.moment.startedAt == now
  {
    var past := Exec(before).said;
    assert past[49].sec == 1;
    assert forall h :: h in past ==> h.sec == 1;
    ChorusRuns(before, 50, at, g, d);
    LoudTick(before + Chorus(50, at), past, Sec(at), now, g, d);
    steps := before + Chorus(50, at) + [Tick(now)];
  }

  /** Ticks 59 seconds apart: the channel is pruned with its moment still open. */
  lemma PruningAtFiftyNine() returns (steps: seq<Step>, now: nat)
    ensures Paced(steps + [Tick(now)], 0, 59) && !PruningSpares(Exec(steps), now)
  {
    steps := FourQuietTicks(10_000_000_000, 69_000_000_000, 128_000_000_000, 187_000_000_000, 246_000_000_000, 0, 59);
    now := 305_000_000_000;
    PacedSnoc(steps, Tick(now), 0, 59);
  }

  /** Ticks 53 seconds apart: the channel is pruned before its cooldown ends, and forgets it. */
  lemma CooldownAtFiftyThree() returns (steps: seq<Step>)
    ensures Paced(steps, 0, 53) && !CooldownKept(Exec(steps))
  {
    steps := FourQuietTicks(10_000_000_000, 63_000_000_000, 116_000_000_000, 169_000_000_000, 222_000_000_000, 0, 53);
    QuietTick(steps, 4, FiveTicks(10_000_000_000, 63_000_000_000, 116_000_000_000, 169_000_000_000, 222_000_000_000),
              10_000_000_000, 275_000_000_000, 0, 53);
    steps := steps + [Tick(275_000_000_000)];
    PacedSnoc(steps, Tick(302_000_000_000), 0, 53);
    steps := SecondFlood(steps + [Tick(302_000_000_000)], 302_000_000_000, 303_000_000_000, 0, 53);
    assert Sec(303_000_000_000) == 303 && Sec(275_000_000_000) == 275;
  }

  /** Ticks a nanosecond under 0.6 seconds apart: a moment ends as a blip. */
  lemma BlipBelowSixTenths() returns (steps: seq<Step>)
    ensures Paced(steps, 599_999_999, 58) && !Conserved(Exec(steps))
  {
    steps := FourQuietTicks(10_900_000_000, 11_499_999_999, 12_099_999_998, 12_699_999_997, 13_299_999_996, 599_999_999, 58);
    QuietTick(steps, 4, FiveTicks(10_900_000_000, 11_499_999_999, 12_099_999_998, 12_699_999_997, 13_299_999_996),
              10_900_000_000, 13_899_999_995, 599_999_999, 58);
    steps := steps + [Tick(13_899_999_995)];
  }

  // ---- so the bounds are exact ----

  /** Idle pruning spares every open moment of every run exactly when ticks are at most 58 seconds apart. */
  lemma PruningSparesIff(d: nat)
    ensures (forall steps, now: nat :: Paced(steps + [Tick(now)], 0, d) ==> PruningSpares(Exec(steps), now)) <==> d <= 58
  {
    if d <= 58 {
      forall steps, now: nat | Paced(steps + [Tick(now)], 0, d) ensures PruningSpares(Exec(steps), now) {
        PruningSparesOpenMoments(steps, now, d);
      }
    } else {
      var steps, now := PruningAtFiftyNine();
      PacedWider(steps + [Tick(now)], 0, 59, 0, d);
    }
  }

  /** The thirty-second cooldown holds in every run exactly when ticks are at most 52 seconds apart. */
  lemma CooldownIff(d: nat)
    ensures (forall steps :: Paced(steps, 0, d) ==> CooldownKept(Exec(steps))) <==> d <= 52
  {
    if d <= 52 {
      forall steps | Paced(steps, 0, d) ensures CooldownKept(Exec(steps)) {
        CooldownHolds(steps, d);
      }
    } else {
      var steps := CooldownAtFiftyThree();
      PacedWider(steps, 0, 53, 0, d);
    }
  }

  /** No opened moment is ever lost exactly when ticks are at least 0.6 seconds apart. */
  lemma NoMomentIsLostIff(g: nat)
    ensures (forall steps :: Paced(steps, g, 58) ==> Conserved(Exec(steps))) <==> g >= 600_000_000
  {
    if g >= 600_000_000 {
      forall steps | Paced(steps, g, 58) ensures Conserved(Exec(steps)) {
        NoMomentIsLost(steps, g, 58);
      }
    } else {
      var steps := BlipBelowSixTenths();
      PacedWider(steps, 599_999_999, 58, g, 58);
    }
  }

  /** Thirty seconds on the clock are kept in every run exactly when the ticker has no jitter at all. */
  lemma RestIff(j: nat)
    ensures (forall steps :: Paced(steps, 0, 52) && Jitter(Exec(steps).ticks, j) ==> RestKept(Exec(steps))) <==> j == 0
  {
    if j == 0 {
      forall steps | Paced(steps, 0, 52) && Jitter(Exec(steps).ticks, j) ensures RestKept(Exec(steps)) {
        SteadyTicksKeepTheRest(steps, 52);
      }
    } else {
      var steps := GapUnderThirtySeconds(1);
      PacedWider(steps, 600_000_000, 52, 0, 52);
      assert !RestedBy(Exec(steps).closed, Exec(steps).chan.value.moment.startedAt);
    }
  }
}
