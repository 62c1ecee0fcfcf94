/**
  How long a penalty lasts.  A rate-limit answer asks for a wait; what can leave the
  queue before the wait is over is settled exactly, for the governor alone and for
  the adaptive layer that may raise the limit meanwhile.
 */
module Penalties {
  import opened RateLimit
  import opened AdaptiveRate

  // ---- the governor alone ----

  /** The bucket holds a token before `deadline`, or earns one at `rate`. */
  ghost predicate Earns(c: Channel, rate: real, deadline: real) {
    c.lastRefill < deadline && (c.tokens >= 1.0 || c.tokens + (deadline - c.lastRefill) * rate > 1.0)
  }

  /** Something past the first `n` entries left the queue before `deadline`. */
  ghost predicate LeftBefore(s: System, n: nat, deadline: real) {
    exists i :: n <= i < |s.dequeues| && s.dequeues[i] < deadline
  }

  /** A run, with no limit faster than `rate`, in which something leaves the queue before `deadline`. */
  ghost predicate Early(s: System, rate: real, deadline: real, steps: seq<Step>) {
    && Legal(s, steps) && (forall i :: 0 <= i < |steps| ==> NoFaster(steps[i], rate))
    && LeftBefore(Exec(s, steps), |s.dequeues|, deadline)
  }

  /** At clock `d` a bucket that held `floor` at `from` can have earned a token. */
  ghost predicate Due(d: real, rate: real, from: real, floor: real) {
    from <= d && 1.0 <= floor + d * rate - from * rate
  }

  /** Every entry past the first `n` left when a token was due. */
  ghost predicate OnTime(s: System, rate: real, from: real, floor: real, n: nat) {
    n <= |s.dequeues| && from <= s.ch.lastRefill
    && forall i :: n <= i < |s.dequeues| ==> Due(s.dequeues[i], rate, from, floor)
  }

  /** The refill clock never goes back, and entries leave at its reading. */
  lemma StepMovesClock(s: System, step: Step)
    requires Enabled(s, step)
    ensures s.ch.lastRefill <= Apply(s, step).ch.lastRefill && s.dequeues <= Apply(s, step).dequeues
    ensures forall i :: |s.dequeues| <= i < |Apply(s, step).dequeues|
              ==> Apply(s, step).dequeues[i] == Apply(s, step).ch.lastRefill
  {
  }

  lemma StepKeepsOnTime(s: System, rate: real, from: Time, floor: real, n: nat, step: Step)
    requires Enabled(s, step) && NoFaster(step, rate) && Held(s, rate, from, floor, n) && OnTime(s, rate, from, floor, n)
    ensures Held(Apply(s, step), rate, from, floor, n) && OnTime(Apply(s, step), rate, from, floor, n)
  {
    StepKeepsHeld(s, rate, from, floor, n, step);
    StepMovesClock(s, step);
  }

  lemma {:induction false} RunKeepsOnTime(s: System, rate: real, from: Time, floor: real, n: nat, steps: seq<Step>)
    requires Legal(s, steps) && Held(s, rate, from, floor, n) && OnTime(s, rate, from, floor, n)
    requires forall i :: 0 <= i < |steps| ==> NoFaster(steps[i], rate)
    ensures OnTime(Exec(s, steps), rate, from, floor, n)
    decreases |steps|
  {
    if steps != [] {
      StepKeepsOnTime(s, rate, from, floor, n, steps[0]);
      RunKeepsOnTime(Apply(s, steps[0]), rate, from, floor, n, steps[1..]);
    }
  }

  /** A token due before the deadline is one the bucket earns. */
  lemma DueEarns(c: Channel, rate: real, d: real, deadline: real)
    requires rate >= 0.0 && Due(d, rate, c.lastRefill, c.tokens) && d < deadline
    ensures Earns(c, rate, deadline)
  {
    Split(c.lastRefill, d, rate);
    Split(c.lastRefill, deadline, rate);
    if rate > 0.0 {
      Strict(d, deadline, rate);
    }
  }

  lemma StartsOnTime(s: System, rate: real)
    requires s.ch.limit.RefillPerSec() <= rate
    ensures Held(s, rate, s.ch.lastRefill, s.ch.tokens, |s.dequeues|)
    ensures OnTime(s, rate, s.ch.lastRefill, s.ch.tokens, |s.dequeues|)
  {
  }

  // The other way round: a run that gets something out in time.

  /** When the bucket should next be read, and when it then holds a token. */
  lemma TokenTime(l: real, t: real, rate: real, deadline: real) returns (start: Time, full: Time)
    requires l >= 0.0 && t < 1.0 && rate > 0.0 && l < deadline && t + (deadline - l) * rate > 1.0
    ensures l <= start < full < deadline && start > 0.0 && (l > 0.0 ==> start == l)
    ensures (full - start) * rate == 1.0 - t
  {
    var need := (1.0 - t) / rate;
    assert need * rate == 1.0 - t;
    assert need > 0.0;
    Cancel(need, deadline - l, rate);
    Strict(deadline - l, need, rate);
    var slack := deadline - l - need;
    start := if l > 0.0 then l else slack / 2.0;
    full := start + need;
  }

  lemma EnoughIsReady(tokens: real, n: nat)
    requires tokens >= 1.0 && n > 0
    ensures ReadyCount(tokens, n) > 0
  {
  }

  /** Reading the bucket at `start` and draining it at `full` takes something out of an idle channel. */
  lemma FillsAndLeaves(c: Channel, start: Time, full: Time)
    requires !c.sending && c.queue != [] && Clamped(c) && c.tokens < 1.0 && c.limit.RefillPerSec() > 0.0
    requires c.lastRefill <= start < full && start > 0.0 && (c.lastRefill > 0.0 ==> start == c.lastRefill)
    requires (full - start) * c.limit.RefillPerSec() == 1.0 - c.tokens
    ensures Ready(Refill(c, start), full) != [] && Refill(Refill(c, start), full).lastRefill == full
  {
    var r := Refill(c, start);
    assert r == c.(lastRefill := start);
    assert Refill(r, full).tokens == 1.0;
    EnoughIsReady(1.0, |c.queue|);
  }

  lemma PickTimes(c: Channel, deadline: real) returns (start: Time, full: Time)
    requires !c.sending && c.queue != [] && Clamped(c) && Earns(c, c.limit.RefillPerSec(), deadline)
    ensures Ready(Refill(c, start), full) != [] && Refill(Refill(c, start), full).lastRefill < deadline
  {
    var rate := c.limit.RefillPerSec();
    if c.tokens >= 1.0 {
      start, full := c.lastRefill, c.lastRefill;
      EnoughIsReady(c.tokens, |c.queue|);
      assert Refill(c, start) == c;
    } else {
      assert rate == 0.0 ==> (deadline - c.lastRefill) * rate == 0.0;
      start, full := TokenTime(c.lastRefill, c.tokens, rate, deadline);
      FillsAndLeaves(c, start, full);
    }
  }

  lemma DrainLeaves(s: System, w: nat, full: Time, deadline: real)
    requires w !in s.workers && Ready(s.ch, full) != [] && Refill(s.ch, full).lastRefill < deadline
    ensures LeftBefore(Apply(s, Begin(w, full)), |s.dequeues|, deadline)
  {
    var t := Apply(s, Begin(w, full));
    assert |t.dequeues| > |s.dequeues| && t.dequeues[|s.dequeues|] < deadline;
  }

  /** Three steps that get something out of an idle channel in time. */
  lemma LeavesInTime(s: System, w: nat, deadline: real) returns (start: Time, full: Time)
    requires !s.ch.sending && w !in s.workers && Clamped(s.ch)
    requires Earns(s.ch, s.ch.limit.RefillPerSec(), deadline)
    ensures var t := Apply(Apply(Apply(s, Enqueue), ReadState(start)), Begin(w, full));
            LeftBefore(t, |s.dequeues|, deadline)
  {
    var queued := Apply(s, Enqueue);
    start, full := PickTimes(queued.ch, deadline);
    DrainLeaves(Apply(queued, ReadState(start)), w, full, deadline);
  }

  /** The channel with its batch run to the end and the flag lowered. */
  ghost predicate Finished(s: System, t: System) {
    t.ch == s.ch.(sending := false) && t.workers == map[] && t.dequeues == s.dequeues
  }

  lemma {:induction false} FinishBatch(s: System, w: nat, n: nat) returns (steps: seq<Step>)
    requires Exclusive(s) && w in s.workers && n == |s.workers[w]|
    ensures Legal(s, steps) && Finished(s, Exec(s, steps))
    ensures forall i :: 0 <= i < |steps| ==> !steps[i].SetLimit?
    decreases n
  {
    InFlightIs(s, w);
    if n == 0 {
      steps := [End(w)];
      assert Exec(Apply(s, End(w)), []) == Apply(s, End(w));
      assert Exec(s, steps) == Apply(s, End(w));
    } else {
      var t := Apply(s, RunOne(w, Sent));
      var rest := FinishBatch(t, w, n - 1);
      steps := [RunOne(w, Sent)] + rest;
      assert steps[1..] == rest;
    }
  }

  lemma {:induction false} ThenSteps(s: System, first: seq<Step>, second: seq<Step>)
    requires Legal(s, first) && Legal(Exec(s, first), second)
    ensures Legal(s, first + second) && Exec(s, first + second) == Exec(Exec(s, first), second)
    decreases |first|
  {
    if first == [] {
      assert first + second == second;
    } else {
      assert (first + second)[0] == first[0] && (first + second)[1..] == first[1..] + second;
      ThenSteps(Apply(s, first[0]), first[1..], second);
    }
  }

  lemma Idle(s: System) returns (steps: seq<Step>)
    requires Sound(s)
    ensures Legal(s, steps) && Finished(s, Exec(s, steps))
    ensures forall i :: 0 <= i < |steps| ==> !steps[i].SetLimit?
  {
    if s.workers == map[] {
      steps := [];
    } else {
      var w :| w in s.workers;
      steps := FinishBatch(s, w, |s.workers[w]|);
    }
  }

  lemma ThreeSteps(s: System, w: nat, start: Time, full: Time)
    requires w !in s.workers
    ensures var steps := [Enqueue, ReadState(start), Begin(w, full)];
            Legal(s, steps) && Exec(s, steps) == Apply(Apply(Apply(s, Enqueue), ReadState(start)), Begin(w, full))
  {
    var steps := [Enqueue, ReadState(start), Begin(w, full)];
    var s1 := Apply(s, Enqueue);
    var s2 := Apply(s1, ReadState(start));
    var s3 := Apply(s2, Begin(w, full));
    assert steps[1..] == [ReadState(start), Begin(w, full)] && steps[1..][1..] == [Begin(w, full)];
    assert Legal(s3, []) && Exec(s3, []) == s3;
    assert Legal(s2, [Begin(w, full)]) && Exec(s2, [Begin(w, full)]) == s3;
    assert Legal(s1, steps[1..]) && Exec(s1, steps[1..]) == s3;
  }

  lemma EarlyRun(s: System, deadline: real) returns (steps: seq<Step>)
    requires Sound(s) && Earns(s.ch, s.ch.limit.RefillPerSec(), deadline)
    ensures Early(s, s.ch.limit.RefillPerSec(), deadline, steps)
  {
    var first := Idle(s);
    var t := Exec(s, first);
    var start, full := LeavesInTime(t, 0, deadline);
    var last := [Enqueue, ReadState(start), Begin(0, full)];
    ThreeSteps(t, 0, start, full);
    ThenSteps(s, first, last);
    steps := first + last;
  }

  /**
    While no faster limit is set, something can leave the queue before `deadline` if and only if
    the bucket holds a token, or earns one at its own rate, before then.
   */
  lemma LeavesEarlyIff(s: System, deadline: real)
    requires Sound(s)
    ensures var rate := s.ch.limit.RefillPerSec();
            (exists steps :: Early(s, rate, deadline, steps)) <==> Earns(s.ch, rate, deadline)
  {
    var rate := s.ch.limit.RefillPerSec();
    if steps :| Early(s, rate, deadline, steps) {
      StartsOnTime(s, rate);
      RunKeepsOnTime(s, rate, s.ch.lastRefill, s.ch.tokens, |s.dequeues|, steps);
      var i :| |s.dequeues| <= i < |Exec(s, steps).dequeues| && Exec(s, steps).dequeues[i] < deadline;
      DueEarns(s.ch, rate, Exec(s, steps).dequeues[i], deadline);
    }
    if Earns(s.ch, rate, deadline) {
      var steps := EarlyRun(s, deadline);
    }
  }

  // ---- under the adaptive layer ----

  function Doubled(burst: int, seed: int): int {
    if burst * 2 > seed then seed else burst * 2
  }

  /** The burst after at most `k` recoveries. */
  function Reached(burst: int, seed: int, k: nat): int
    decreases k
  {
    if k == 0 || burst >= seed then burst else Reached(Doubled(burst, seed), seed, k - 1)
  }

  ghost predicate Between(burst: int, seed: int) {
    burst <= seed && (burst >= 1 || burst == seed)
  }

  lemma {:induction false} ReachedRange(b: int, seed: int, k: nat)
    requires Between(b, seed)
    ensures b <= Reached(b, seed, k) <= seed && Between(Reached(b, seed, k), seed)
    decreases k
  {
    if k > 0 && b < seed {
      ReachedRange(Doubled(b, seed), seed, k - 1);
    }
  }

  /** A smaller burst with fewer recoveries left reaches no higher. */
  lemma {:induction false} ReachedMonotone(a: int, b: int, seed: int, j: nat, k: nat)
    requires Between(a, seed) && Between(b, seed) && a <= b && j <= k
    ensures Reached(a, seed, j) <= Reached(b, seed, k)
    decreases k
  {
    ReachedRange(a, seed, j);
    ReachedRange(b, seed, k);
    if j > 0 && b < seed {
      ReachedMonotone(Doubled(a, seed), Doubled(b, seed), seed, j - 1, k - 1);
    }
  }

  /** The refill rate of the seed's window with another burst. */
  function RateWith(base: Limit, burst: int): real {
    base.(burst := burst).RefillPerSec()
  }

  lemma RateMonotone(base: Limit, a: int, b: int)
    requires a <= b
    ensures RateWith(base, a) <= RateWith(base, b)
  {
    SmallerBurstIsWithin(base.(burst := b), a);
  }

  /** How many sends of worker `v`'s batch have not been answered yet. */
  function Unanswered(w: World, v: nat): int {
    if v in w.gov.workers then |w.gov.workers[v]| - (if v in w.phases then 1 else 0) else 0
  }

  lemma BetweenAlways(w: World)
    requires Inv(w)
    ensures Between(w.pos.cur.burst, w.pos.base.burst) && w.pos.cur == w.pos.base.(burst := w.pos.cur.burst)
  {
  }

  /** The governor step an act takes, if it takes one. */
  function StepOf(w: World, a: Act): (step: Step)
    requires Can(w, a)
    ensures !a.SendReturned? && !a.SetQuiet? ==> Enabled(w.gov, step) && Do(w, a).gov == Apply(w.gov, step)
  {
    match a
    case Gov(s) => s
    case TellLimit(v) => SetLimit(w.phases[v].cur)
    case TellPenalty(v, now) => Penalize(w.phases[v].outcome.wait, now)
    case Deliver(v) => RunOne(v, w.phases[v].outcome)
    case _ => Enqueue
  }

  // ---- acts on a real clock ----

  /** An act and the time it happens. */
  datatype Timed = At(act: Act, time: Time)

  /**
    Every clock reading is taken under the lock of its section, so it is the time of the act; a
    drain alone reads the clock before it takes the lock, so its reading may be old.  The quiet
    period is configured beforehand.
   */
  predicate Honest(x: Timed) {
    match x.act
    case Gov(step) => (step.Begin? ==> step.now <= x.time) && (step.ReadState? ==> step.now == x.time)
    case SendReturned(_, _, now) => now == x.time
    case TellPenalty(_, now) => now == x.time
    case SetQuiet(_) => false
    case _ => true
  }

  /** From `w` at time `t` the acts `xs`, in order and all before `deadline`, lead to `w2` at `t2`. */
  ghost predicate Goes(w: World, t: Time, xs: seq<Timed>, w2: World, t2: Time, deadline: real)
    decreases |xs|
  {
    if xs == [] then w == w2 && t == t2
    else
      && t <= xs[0].time < deadline && Honest(xs[0]) && Can(w, xs[0].act)
      && Goes(Do(w, xs[0].act), xs[0].time, xs[1..], w2, t2, deadline)
  }

  lemma {:induction false} GoesOn(w: World, t: Time, xs: seq<Timed>, w1: World, t1: Time, ys: seq<Timed>, w2: World, t2: Time,
                                  deadline: real)
    requires Goes(w, t, xs, w1, t1, deadline) && Goes(w1, t1, ys, w2, t2, deadline)
    ensures Goes(w, t, xs + ys, w2, t2, deadline)
    decreases |xs|
  {
    if xs == [] {
      assert xs + ys == ys;
    } else {
      assert (xs + ys)[0] == xs[0] && (xs + ys)[1..] == xs[1..] + ys;
      GoesOn(Do(w, xs[0].act), xs[0].time, xs[1..], w1, t1, ys, w2, t2, deadline);
    }
  }

  lemma GoesOne(w: World, t: Time, a: Act, time: Time, deadline: real)
    requires t <= time < deadline && Honest(At(a, time)) && Can(w, a)
    ensures Goes(w, t, [At(a, time)], Do(w, a), time, deadline)
  {
    assert [At(a, time)][1..] == [];
  }

  /** No stored clock reading is ahead of the time. */
  ghost predicate Timely(w: World, t: Time) {
    w.gov.ch.lastRefill <= t && w.pos.lastStep <= t
  }

  lemma ActKeepsTimely(w: World, t: Time, x: Timed)
    requires Timely(w, t) && t <= x.time && Honest(x) && Can(w, x.act)
    ensures Timely(Do(w, x.act), x.time) && Do(w, x.act).quiet == w.quiet
  {
  }

  /** Every state a key reaches on a real clock satisfies the invariant and is timely. */
  lemma {:induction false} RunsAreTimely(w: World, t: Time, xs: seq<Timed>, w2: World, t2: Time, deadline: real)
    requires Inv(w) && Timely(w, t) && Goes(w, t, xs, w2, t2, deadline)
    ensures Inv(w2) && Timely(w2, t2) && t <= t2 && w2.quiet == w.quiet && w2.pos.base == w.pos.base
    decreases |xs|
  {
    if xs != [] {
      ActKeepsInv(w, xs[0].act);
      ActKeepsTimely(w, t, xs[0]);
      RunsAreTimely(Do(w, xs[0].act), xs[0].time, xs[1..], w2, t2, deadline);
    }
  }

  lemma StartsTimely(def: Limit, base: Limit, quiet: real, now: Time)
    ensures Inv(Ensured(def, base, quiet, now)) && Timely(Ensured(def, base, quiet, now), now)
  {
    EnsuredIsInv(def, base, quiet, now);
  }

  // ---- how many recoveries fit ----

  /** The earliest a recovery can come: not before `t`, and a quiet period after the last step. */
  function Earliest(t: Time, last: Time, quiet: real): Time
  {
    if t < last + quiet then last + quiet else t
  }

  /** How many of at most `k` recoveries, each a quiet period after the last step, fit before `deadline`. */
  function Fits(t: Time, last: Time, quiet: real, deadline: real, k: nat): (m: nat)
    ensures m <= k
    decreases k
  {
    if k == 0 || Earliest(t, last, quiet) >= deadline then 0
    else
      var first := Earliest(t, last, quiet);
      1 + Fits(first, first, quiet, deadline, k - 1)
  }

  /** Later, or with fewer sends left, no more fit. */
  lemma {:induction false} FitsMonotone(t: Time, last: Time, t': Time, last': Time, quiet: real, deadline: real, k: nat, k': nat)
    requires t <= t' && last <= last' && k' <= k
    ensures Fits(t', last', quiet, deadline, k') <= Fits(t, last, quiet, deadline, k)
    decreases k
  {
    var first, first' := Earliest(t, last, quiet), Earliest(t', last', quiet);
    if k' > 0 && first' < deadline {
      FitsMonotone(first, first, first', first', quiet, deadline, k - 1, k' - 1);
    }
  }

  /** The burst that the sends not yet answered can still raise the channel to before `deadline`. */
  function TopInTime(w: World, t: Time, deadline: real, k: nat): int
  {
    Reached(w.pos.cur.burst, w.pos.base.burst, Fits(t, w.pos.lastStep, w.quiet, deadline, k))
  }

  // ---- only if ----

  /** Nothing has left the queue since; only `v`'s batch is in flight, and it cannot lift the burst past `top` in time. */
  ghost predicate Holding(w: World, t: Time, v: nat, top: int, rate: real, from: Time, floor: real, n: nat, deadline: real) {
    && |w.gov.dequeues| == n && Held(w.gov, rate, from, floor, n)
    && w.gov.workers.Keys <= {v} && Unanswered(w, v) >= 0
    && TopInTime(w, t, deadline, Unanswered(w, v)) <= top
    && rate == RateWith(w.pos.base, top)
  }

  lemma LaterReachesLess(w: World, t: Time, t': Time, deadline: real, k: nat)
    requires Inv(w) && t <= t'
    ensures TopInTime(w, t', deadline, k) <= TopInTime(w, t, deadline, k)
  {
    BetweenAlways(w);
    FitsMonotone(t, w.pos.lastStep, t', w.pos.lastStep, w.quiet, deadline, k, k);
    ReachedMonotone(w.pos.cur.burst, w.pos.cur.burst, w.pos.base.burst,
                    Fits(t', w.pos.lastStep, w.quiet, deadline, k), Fits(t, w.pos.lastStep, w.quiet, deadline, k));
  }

  /** Answering a send never lets the rest of the batch reach higher than it could before. */
  lemma AnswerReachesLess(w: World, v: nat, o: Outcome, now: Time, deadline: real, k: nat)
    requires Inv(w) && Timely(w, now) && Can(w, SendReturned(v, o, now)) && now < deadline && k > 0
    ensures TopInTime(Observe(w, v, o, now), now, deadline, k - 1) <= TopInTime(w, now, deadline, k)
  {
    var u := Observe(w, v, o, now);
    var seed, last := w.pos.base.burst, w.pos.lastStep;
    ObserveKeepsInv(w, v, o, now);
    BetweenAlways(w);
    BetweenAlways(u);
    if u.pos.cur.burst <= w.pos.cur.burst {
      FitsMonotone(now, last, now, u.pos.lastStep, w.quiet, deadline, k, k - 1);
      ReachedMonotone(u.pos.cur.burst, w.pos.cur.burst, seed,
                      Fits(now, u.pos.lastStep, w.quiet, deadline, k - 1), Fits(now, last, w.quiet, deadline, k));
    } else {
      assert u.pos.cur.burst == Doubled(w.pos.cur.burst, seed) && Earliest(now, last, w.quiet) == now;
    }
  }

  /** Other acts leave the burst alone and answer no send. */
  lemma OtherKeepsBatch(w: World, a: Act, v: nat)
    requires Inv(w) && Can(w, a) && !a.SendReturned? && w.gov.workers.Keys <= {v}
    requires |Do(w, a).gov.dequeues| == |w.gov.dequeues|
    ensures var u := Do(w, a);
            u.gov.workers.Keys <= {v} && Unanswered(u, v) == Unanswered(w, v) && u.pos == w.pos
  {
  }

  lemma ActKeepsReach(w: World, t: Time, x: Timed, v: nat, top: int, deadline: real)
    requires Inv(w) && Timely(w, t) && t <= x.time < deadline && Honest(x) && Can(w, x.act)
    requires w.gov.workers.Keys <= {v} && Unanswered(w, v) >= 0 && TopInTime(w, t, deadline, Unanswered(w, v)) <= top
    requires |Do(w, x.act).gov.dequeues| == |w.gov.dequeues|
    ensures var u := Do(w, x.act);
            && u.gov.workers.Keys <= {v} && Unanswered(u, v) >= 0
            && TopInTime(u, x.time, deadline, Unanswered(u, v)) <= top
  {
    LaterReachesLess(w, t, x.time, deadline, Unanswered(w, v));
    if x.act.SendReturned? {
      assert x.act.worker in {v};
      AnswerReachesLess(w, v, x.act.outcome, x.time, deadline, Unanswered(w, v));
    } else {
      OtherKeepsBatch(w, x.act, v);
    }
  }

  /** A limit the governor is told meanwhile is no faster. */
  lemma ToldNoFaster(w: World, t: Time, v: nat, top: int, deadline: real, a: Act)
    requires Inv(w) && Can(w, a) && !a.SendReturned? && !a.SetQuiet? && Unanswered(w, v) >= 0
    requires TopInTime(w, t, deadline, Unanswered(w, v)) <= top
    ensures NoFaster(StepOf(w, a), RateWith(w.pos.base, top))
  {
    BetweenAlways(w);
    ReachedRange(w.pos.cur.burst, w.pos.base.burst, Fits(t, w.pos.lastStep, w.quiet, deadline, Unanswered(w, v)));
    RateMonotone(w.pos.base, w.pos.cur.burst, top);
  }

  /** The governor's side of an act: still held back, and anything that leaves was due. */
  lemma HoldingStep(w: World, t: Time, x: Timed, v: nat, top: int, rate: real, from: Time, floor: real, n: nat, deadline: real)
    requires Inv(w) && Can(w, x.act) && Honest(x) && OnTime(w.gov, rate, from, floor, n)
    requires Holding(w, t, v, top, rate, from, floor, n, deadline)
    ensures Held(Do(w, x.act).gov, rate, from, floor, n) && OnTime(Do(w, x.act).gov, rate, from, floor, n)
  {
    if !x.act.SendReturned? {
      ToldNoFaster(w, t, v, top, deadline, x.act);
      StepKeepsOnTime(w.gov, rate, from, floor, n, StepOf(w, x.act));
    }
  }

  /** If something leaves before the deadline, the first to leave was due before the deadline. */
  lemma {:induction false} FirstIsDue(w: World, t: Time, xs: seq<Timed>, w2: World, t2: Time, v: nat, top: int, rate: real,
                                      from: Time, floor: real, n: nat, deadline: real) returns (d: real)
    requires Inv(w) && Timely(w, t) && t < deadline && OnTime(w.gov, rate, from, floor, n)
    requires Holding(w, t, v, top, rate, from, floor, n, deadline)
    requires Goes(w, t, xs, w2, t2, deadline) && |w2.gov.dequeues| > n
    ensures Due(d, rate, from, floor) && d < deadline
    decreases |xs|
  {
    var x := xs[0];
    var u := Do(w, x.act);
    HoldingStep(w, t, x, v, top, rate, from, floor, n, deadline);
    ActKeepsInv(w, x.act);
    ActKeepsTimely(w, t, x);
    if |u.gov.dequeues| > n {
      d := u.gov.dequeues[n];
    } else {
      ActKeepsReach(w, t, x, v, top, deadline);
      d := FirstIsDue(u, x.time, xs[1..], w2, t2, v, top, rate, from, floor, n, deadline);
    }
  }

  // ---- if ----

  /** Answers one send with a failure: nothing changes but the batch. */
  lemma FailOne(w: World, t: Time, v: nat, deadline: real) returns (xs: seq<Timed>, u: World)
    requires Inv(w) && v in w.gov.workers && w.gov.workers[v] != [] && v !in w.phases && t < deadline
    ensures Goes(w, t, xs, u, t, deadline) && Inv(u) && v !in u.phases && u.pos == w.pos && u.quiet == w.quiet
    ensures v in u.gov.workers && u.gov.workers[v] == w.gov.workers[v][1..]
    ensures u.gov.ch == w.gov.ch && u.gov.dequeues == w.gov.dequeues
  {
    var w1 := Do(w, SendReturned(v, Failed, t));
    ActKeepsInv(w, SendReturned(v, Failed, t));
    GoesOne(w, t, SendReturned(v, Failed, t), t, deadline);
    u := Do(w1, Deliver(v));
    ActKeepsInv(w1, Deliver(v));
    GoesOne(w1, t, Deliver(v), t, deadline);
    GoesOn(w, t, [At(SendReturned(v, Failed, t), t)], w1, t, [At(Deliver(v), t)], u, t, deadline);
    xs := [At(SendReturned(v, Failed, t), t)] + [At(Deliver(v), t)];
  }

  /** Answers one send with a success at `time`, when a recovery is due. */
  lemma RaiseOne(w: World, t: Time, v: nat, time: Time, deadline: real) returns (xs: seq<Timed>, u: World)
    requires Inv(w) && v in w.gov.workers && w.gov.workers[v] != [] && w.phases == map[] && w.gov.ch.tokens <= 0.0
    requires t <= time < deadline && MayRecover(w.pos, w.quiet, time)
    ensures Goes(w, t, xs, u, time, deadline) && Inv(u) && v !in u.phases && u.quiet == w.quiet
    ensures v in u.gov.workers && u.gov.workers[v] == w.gov.workers[v][1..]
    ensures u.pos == Recovered(w.pos, time) && u.gov.ch == w.gov.ch.(limit := u.pos.cur)
    ensures u.gov.dequeues == w.gov.dequeues
  {
    BetweenAlways(w);
    var w1 := Do(w, SendReturned(v, Sent, time));
    ActKeepsInv(w, SendReturned(v, Sent, time));
    GoesOne(w, t, SendReturned(v, Sent, time), time, deadline);
    var w2 := Do(w1, TellLimit(v));
    ActKeepsInv(w1, TellLimit(v));
    GoesOne(w1, time, TellLimit(v), time, deadline);
    assert w2.gov.ch == w.gov.ch.(limit := w1.pos.cur);
    u := Do(w2, Deliver(v));
    ActKeepsInv(w2, Deliver(v));
    GoesOne(w2, time, Deliver(v), time, deadline);
    GoesOn(w, t, [At(SendReturned(v, Sent, time), time)], w1, time, [At(TellLimit(v), time)], w2, time, deadline);
    xs := [At(SendReturned(v, Sent, time), time)] + [At(TellLimit(v), time)];
    GoesOn(w, t, xs, w2, time, [At(Deliver(v), time)], u, time, deadline);
    xs := xs + [At(Deliver(v), time)];
  }

  /** The batch answered so that every recovery that fits is taken. */
  lemma {:induction false} RecoverInTime(w: World, t: Time, v: nat, k: nat, deadline: real)
      returns (xs: seq<Timed>, u: World, t2: Time)
    requires Inv(w) && Timely(w, t) && v in w.gov.workers && k == |w.gov.workers[v]| && v !in w.phases
    requires w.gov.ch.tokens <= 0.0 && t < deadline
    ensures Goes(w, t, xs, u, t2, deadline) && t <= t2 < deadline && Inv(u) && v !in u.phases
    ensures v in u.gov.workers && u.gov.workers[v] == []
    ensures u.pos.base == w.pos.base && u.pos.cur.burst == TopInTime(w, t, deadline, k)
    ensures u.gov.ch == w.gov.ch.(limit := u.pos.cur) && u.gov.dequeues == w.gov.dequeues
    decreases k
  {
    InFlightIs(w.gov, v);
    assert w.phases == map[];
    if k == 0 {
      xs, u, t2 := [], w, t;
    } else {
      var first := Earliest(t, w.pos.lastStep, w.quiet);
      var one, mid, t1;
      if w.pos.cur.burst < w.pos.base.burst && first < deadline {
        t1 := first;
        one, mid := RaiseOne(w, t, v, first, deadline);
      } else {
        t1 := t;
        one, mid := FailOne(w, t, v, deadline);
      }
      assert TopInTime(mid, t1, deadline, k - 1) == TopInTime(w, t, deadline, k);
      var rest;
      rest, u, t2 := RecoverInTime(mid, t1, v, k - 1, deadline);
      GoesOn(w, t, one, mid, t1, rest, u, t2, deadline);
      xs := one + rest;
    }
  }

  /** A time before the deadline, not before `t`, at which the bucket holds a token. */
  lemma DrainTime(c: Channel, t: Time, deadline: real) returns (time: Time)
    requires !c.sending && c.queue != [] && Clamped(c) && c.tokens <= 0.0 && 0.0 < c.lastRefill <= t < deadline
    requires Earns(c, c.limit.RefillPerSec(), deadline)
    ensures t <= time < deadline && Ready(c, time) != []
  {
    var rate := c.limit.RefillPerSec();
    assert rate == 0.0 ==> (deadline - c.lastRefill) * rate == 0.0;
    var start, full := TokenTime(c.lastRefill, c.tokens, rate, deadline);
    time := if t < full then full else t;
    Scale(time - full, rate, rate);
    FullByThen(c, full, time, rate);
  }

  lemma FullByThen(c: Channel, full: Time, time: Time, rate: real)
    requires !c.sending && c.queue != [] && Clamped(c) && 0.0 < c.lastRefill < full <= time
    requires rate == c.limit.RefillPerSec() > 0.0 && (full - c.lastRefill) * rate == 1.0 - c.tokens
    ensures Ready(c, time) != []
  {
    Split(c.lastRefill, full, rate);
    Split(c.lastRefill, time, rate);
    Strict(full, time, rate);
    var r := Refill(c, time);
    assert c.tokens + (time - c.lastRefill) * rate >= 1.0;
    assert r.tokens >= 1.0;
    EnoughIsReady(r.tokens, |c.queue|);
  }

  /** The batch ended, a submission, and a drain that gets something out. */
  lemma EndAndLeave(w: World, t: Time, v: nat, deadline: real) returns (xs: seq<Timed>, u: World, t2: Time)
    requires Inv(w) && v in w.gov.workers && w.gov.workers[v] == [] && v !in w.phases
    requires w.gov.ch.tokens <= 0.0 && 0.0 < w.gov.ch.lastRefill <= t < deadline
    requires Earns(w.gov.ch, w.gov.ch.limit.RefillPerSec(), deadline)
    ensures Goes(w, t, xs, u, t2, deadline) && |u.gov.dequeues| > |w.gov.dequeues|
  {
    InFlightIs(w.gov, v);
    ActKeepsInv(w, Gov(End(v)));
    var w1 := Do(w, Gov(End(v)));
    GoesOne(w, t, Gov(End(v)), t, deadline);
    var w2 := Do(w1, Gov(Enqueue));
    ActKeepsInv(w1, Gov(Enqueue));
    GoesOne(w1, t, Gov(Enqueue), t, deadline);
    t2 := DrainTime(w2.gov.ch, t, deadline);
    u := Do(w2, Gov(Begin(v, t2)));
    GoesOne(w2, t, Gov(Begin(v, t2)), t2, deadline);
    GoesOn(w, t, [At(Gov(End(v)), t)], w1, t, [At(Gov(Enqueue), t)], w2, t, deadline);
    xs := [At(Gov(End(v)), t)] + [At(Gov(Enqueue), t)];
    GoesOn(w, t, xs, w2, t, [At(Gov(Begin(v, t2)), t2)], u, t2, deadline);
    xs := xs + [At(Gov(Begin(v, t2)), t2)];
  }

  // ---- when a wait is cut short ----

  /** On a real clock, from `p` at time `t`, something can leave the queue before `deadline`. */
  ghost predicate CutShort(p: World, t: Time, deadline: real) {
    exists xs, q, u :: Goes(p, t, xs, q, u, deadline) && |q.gov.dequeues| > |p.gov.dequeues|
  }

  /** Where a rate-limit answer leaves its worker: the penalty told, the result not yet delivered. */
  ghost predicate Told(p: World, t: Time, v: nat) {
    && Inv(p) && Timely(p, t) && v in p.phases && p.phases[v].ToDeliver?
    && p.gov.ch.tokens <= 0.0 && p.gov.ch.lastRefill == t > 0.0
  }

  ghost function RateInTime(p: World, t: Time, v: nat, deadline: real): real
    requires Told(p, t, v)
  {
    RateWith(p.pos.base, TopInTime(p, t, deadline, Unanswered(p, v)))
  }

  lemma SameEarnings(w: World, q: World, rate: real, deadline: real)
    requires Inv(q) && q.gov.ch == w.gov.ch.(limit := q.pos.cur) && q.pos.base == w.pos.base
    requires rate == RateWith(w.pos.base, q.pos.cur.burst) && Earns(w.gov.ch, rate, deadline)
    ensures Earns(q.gov.ch, q.gov.ch.limit.RefillPerSec(), deadline)
  {
    BetweenAlways(q);
  }

  lemma RecoverAndLeave(w: World, t: Time, v: nat, k: nat, deadline: real) returns (xs: seq<Timed>, u: World, t2: Time)
    requires Inv(w) && Timely(w, t) && v in w.gov.workers && k == |w.gov.workers[v]| && v !in w.phases
    requires w.gov.ch.tokens <= 0.0 && 0.0 < w.gov.ch.lastRefill && t < deadline
    requires Earns(w.gov.ch, RateWith(w.pos.base, TopInTime(w, t, deadline, k)), deadline)
    ensures Goes(w, t, xs, u, t2, deadline) && |u.gov.dequeues| > |w.gov.dequeues|
  {
    var q, t1;
    xs, q, t1 := RecoverInTime(w, t, v, k, deadline);
    SameEarnings(w, q, RateWith(w.pos.base, TopInTime(w, t, deadline, k)), deadline);
    var ys;
    ys, u, t2 := EndAndLeave(q, t1, v, deadline);
    GoesOn(w, t, xs, q, t1, ys, u, t2, deadline);
    xs := xs + ys;
  }

  /** The result of the rate-limited send is delivered. */
  lemma DeliverIt(p: World, t: Time, v: nat, deadline: real) returns (w: World)
    requires Told(p, t, v) && t < deadline
    ensures Goes(p, t, [At(Deliver(v), t)], w, t, deadline) && Inv(w) && Timely(w, t)
    ensures w.gov.ch == p.gov.ch && w.gov.dequeues == p.gov.dequeues && w.pos == p.pos && w.quiet == p.quiet
    ensures v in w.gov.workers && v !in w.phases && |w.gov.workers[v]| == Unanswered(p, v)
  {
    InFlightIs(p.gov, v);
    w := Do(p, Deliver(v));
    ActKeepsInv(p, Deliver(v));
    GoesOne(p, t, Deliver(v), t, deadline);
  }

  lemma CutWitness(p: World, t: Time, v: nat, deadline: real)
    requires Told(p, t, v) && Earns(p.gov.ch, RateInTime(p, t, v, deadline), deadline)
    ensures CutShort(p, t, deadline)
  {
    var w := DeliverIt(p, t, v, deadline);
    var xs, q, u := RecoverAndLeave(w, t, v, |w.gov.workers[v]|, deadline);
    GoesOn(p, t, [At(Deliver(v), t)], w, t, xs, q, u, deadline);
  }

  lemma CutNeedsEarning(p: World, t: Time, v: nat, deadline: real)
    requires Told(p, t, v) && CutShort(p, t, deadline)
    ensures Earns(p.gov.ch, RateInTime(p, t, v, deadline), deadline)
  {
    InFlightIs(p.gov, v);
    BetweenAlways(p);
    var top := TopInTime(p, t, deadline, Unanswered(p, v));
    var rate, n := RateWith(p.pos.base, top), |p.gov.dequeues|;
    ReachedRange(p.pos.cur.burst, p.pos.base.burst, Fits(t, p.pos.lastStep, p.quiet, deadline, Unanswered(p, v)));
    assert p.phases.Keys <= {v};
    RateMonotone(p.pos.base, p.pos.cur.burst, top);
    StartsOnTime(p.gov, rate);
    var xs, q, u :| Goes(p, t, xs, q, u, deadline) && |q.gov.dequeues| > n;
    var d := FirstIsDue(p, t, xs, q, u, v, top, rate, p.gov.ch.lastRefill, p.gov.ch.tokens, n, deadline);
    DueEarns(p.gov.ch, rate, d, deadline);
  }

  /** At the rate it was computed for, a penalty's floor earns no token before the wait is over. */
  lemma FloorLasts(c: Channel, wait: real, now: Time)
    ensures var p := Penalized(c, wait, now);
            p.tokens <= 0.0 && !Earns(p, c.limit.RefillPerSec(), now + wait)
  {
    var p, rate := Penalized(c, wait, now), c.limit.RefillPerSec();
    Scale(p.lastRefill - now, rate, rate);
    Split(now, p.lastRefill, rate);
    Split(p.lastRefill, now + wait, rate);
    Split(now, now + wait, rate);
  }

  /** The state a penalty leaves: without a further recovery the wait is kept. */
  lemma JustPenalized(w: World, v: nat, now: Time, p: World)
    requires Inv(w) && Timely(w, now) && now > 0.0 && Can(w, TellPenalty(v, now)) && p == Do(w, TellPenalty(v, now))
    ensures Told(p, now, v) && p.pos == w.pos && p.quiet == w.quiet
    ensures v in w.gov.workers && Unanswered(p, v) == |w.gov.workers[v]| - 1 >= 0
    ensures !Earns(p.gov.ch, RateWith(p.pos.base, p.pos.cur.burst), now + w.phases[v].outcome.wait)
  {
    InFlightIs(w.gov, v);
    ActKeepsInv(w, TellPenalty(v, now));
    BetweenAlways(w);
    assert w.phases.Keys <= {v} && w.gov.ch.limit == w.pos.cur;
    FloorLasts(w.gov.ch, w.phases[v].outcome.wait, now);
  }

  /**
    After a rate-limit answer's penalty at `now`, on a real clock, something can leave the queue
    before the wait it asked for is over if and only if the burst that the other sends of its batch
    can raise the channel to in that time, by one doubling a quiet period, refills the bucket in time.
   */
  lemma PenaltyIsCutShortIff(w: World, v: nat, now: Time, p: World)
    requires Inv(w) && Timely(w, now) && now > 0.0 && Can(w, TellPenalty(v, now)) && p == Do(w, TellPenalty(v, now))
    ensures v in w.gov.workers && |w.gov.workers[v]| > 0
    ensures var deadline := now + w.phases[v].outcome.wait;
            CutShort(p, now, deadline)
            <==> Earns(p.gov.ch, RateWith(w.pos.base, TopInTime(w, now, deadline, |w.gov.workers[v]| - 1)), deadline)
  {
    var deadline := now + w.phases[v].outcome.wait;
    JustPenalized(w, v, now, p);
    if CutShort(p, now, deadline) {
      CutNeedsEarning(p, now, v, deadline);
    }
    if Earns(p.gov.ch, RateInTime(p, now, v, deadline), deadline) {
      CutWitness(p, now, v, deadline);
    }
  }

  /**
    So the wait is kept when it ends within the quiet period after the rate-limit answer, when that
    send was the last of its batch, and when the burst is already the seed.
   */
  lemma PenaltyIsKept(w: World, v: nat, now: Time, p: World)
    requires Inv(w) && Timely(w, now) && now > 0.0 && Can(w, TellPenalty(v, now)) && p == Do(w, TellPenalty(v, now))
    requires v in w.gov.workers ==>
               || now + w.phases[v].outcome.wait <= w.pos.lastStep + w.quiet
               || |w.gov.workers[v]| == 1 || w.pos.cur.burst >= w.pos.base.burst
    ensures !CutShort(p, now, now + w.phases[v].outcome.wait)
  {
    PenaltyIsCutShortIff(w, v, now, p);
    JustPenalized(w, v, now, p);
  }
}
