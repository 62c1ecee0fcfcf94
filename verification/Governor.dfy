/**
  The send governor (internal/ratelimit/governor.go): one token bucket and one
  FIFO queue per channel key.  The sends themselves run outside the lock, so the
  governor is modelled twice over the same transition functions: as a class
  whose methods are the critical sections, and as a step system in which those
  sections, the sends and their result deliveries interleave freely.
 */
module RateLimit {

  /** Seconds since the zero time; 0.0 is the zero `time.Time`. */
  type Time = t: real | t >= 0.0

  /** A token-bucket policy: `burst` tokens, refilled to full over `window` seconds. */
  datatype Limit = Limit(burst: int, window: real) {
    function RefillPerSec(): (r: real)
      ensures r >= 0.0
      ensures r > 0.0 <==> window > 0.0 && burst > 0
      ensures window > 0.0 && burst > 0 ==> r * window == burst as real
    {
      if window <= 0.0 || burst <= 0 then 0.0 else burst as real / window
    }
  }

  /** A queued send, named by its position among the channel's submissions. */
  type Entry = nat

  /** What `send()` returned; a rate-limit answer carries the suggested wait. */
  datatype Outcome = Sent | Failed | RateLimited(wait: real)

  datatype Channel = Channel(
    limit: Limit, tokens: real, lastRefill: Time, queue: seq<Entry>, sending: bool)

  function Fresh(def: Limit, now: Time): Channel {
    Channel(def, def.burst as real, now, [], false)
  }

  function Min(a: real, b: real): (m: real)
    ensures m <= a && m <= b && (m == a || m == b)
  {
    if a <= b then a else b
  }

  /** `refill`: a reading at or before the refill clock adds nothing. */
  function Refill(c: Channel, now: Time): (r: Channel)
    ensures r.lastRefill >= now && r.lastRefill >= c.lastRefill
    ensures r == c.(tokens := r.tokens, lastRefill := r.lastRefill)
  {
    if c.lastRefill == 0.0 then c.(lastRefill := now)
    else
      var elapsed := now - c.lastRefill;
      if elapsed <= 0.0 then c
      else c.(tokens := Min(c.tokens + elapsed * c.limit.RefillPerSec(), c.limit.burst as real),
              lastRefill := now)
  }

  function Relimit(c: Channel, l: Limit): Channel {
    c.(limit := l, tokens := Min(c.tokens, l.burst as real))
  }

  /** The balance from which `l` takes `wait` seconds to earn a whole token. */
  function Deficit(l: Limit, wait: real): real {
    1.0 - wait * l.RefillPerSec()
  }

  function Penalized(c: Channel, wait: real, now: Time): Channel {
    var r := Refill(c, now);
    r.(tokens := Min(r.tokens, Min(Deficit(c.limit, wait), 0.0)))
  }

  function Enqueued(c: Channel, e: Entry): Channel {
    c.(queue := c.queue + [e])
  }

  /** How many of `n` queued sends a bucket holding `tokens` pays for. */
  function ReadyCount(tokens: real, n: nat): (k: nat)
    ensures k <= n
    ensures k > 0 ==> k as real <= tokens
    ensures k < n ==> tokens < k as real + 1.0
  {
    if tokens >= 1.0 && n > 0 then 1 + ReadyCount(tokens - 1.0, n - 1) else 0
  }

  /** The batch one `drainKey` critical section takes out of the queue. */
  function Ready(c: Channel, now: Time): (ready: seq<Entry>)
    ensures c.sending ==> ready == []
    ensures ready <= c.queue
  {
    if c.sending then []
    else c.queue[..ReadyCount(Refill(c, now).tokens, |c.queue|)]
  }

  /** The channel after that critical section. */
  function Drained(c: Channel, now: Time): Channel {
    if c.sending then c
    else
      var r, k := Refill(c, now), |Ready(c, now)|;
      r.(tokens := r.tokens - k as real, queue := r.queue[k..], sending := k > 0)
  }

  /** The countdown `State` reports for a channel it has just refilled. */
  function NextIn(c: Channel): (wait: real)
    ensures wait >= 0.0
  {
    if c.tokens >= 1.0 || c.queue == [] || c.limit.RefillPerSec() <= 0.0 then 0.0
    else (1.0 - c.tokens) / c.limit.RefillPerSec()
  }

  // ---- the governor object: each method is one critical section ----

  class Governor {
    const def: Limit
    var channels: map<string, Channel>

    constructor (def: Limit)
      ensures this.def == def && channels == map[]
    {
      this.def := def;
      channels := map[];
    }

    /** The state every operation but `drainKey` and `State` starts from: created on first use. */
    function StateFor(key: string, now: Time): Channel
      reads this
    {
      if key in channels then channels[key] else Fresh(def, now)
    }

    method SetLimit(key: string, l: Limit, now: Time)
      modifies this
      ensures channels == old(channels)[key := Relimit(old(StateFor(key, now)), l)]
      ensures var c := old(StateFor(key, now));
              && channels[key].limit == l && channels[key].queue == c.queue && channels[key].sending == c.sending
              && channels[key].lastRefill == c.lastRefill
              && channels[key].tokens == if c.tokens > l.burst as real then l.burst as real else c.tokens
    {
      var cs := StateFor(key, now);
      cs := cs.(limit := l);
      if cs.tokens > l.burst as real {
        cs := cs.(tokens := l.burst as real);
      }
      channels := channels[key := cs];
    }

    method Penalize(key: string, wait: real, now: Time)
      modifies this
      ensures channels == old(channels)[key := Penalized(old(StateFor(key, now)), wait, now)]
      ensures var c := Refill(old(StateFor(key, now)), now);
              && channels[key] == c.(tokens := channels[key].tokens)
              && channels[key].tokens <= c.tokens && channels[key].tokens <= 0.0
              && channels[key].tokens <= 1.0 - wait * c.limit.RefillPerSec()
              && (channels[key].tokens == c.tokens || channels[key].tokens == 0.0
                  || channels[key].tokens == 1.0 - wait * c.limit.RefillPerSec())
    {
      var cs := Refill(StateFor(key, now), now);
      var floor := Deficit(cs.limit, wait);
      if floor > 0.0 {
        floor := 0.0;
      }
      if cs.tokens > floor {
        cs := cs.(tokens := floor);
      }
      channels := channels[key := cs];
    }

    /** The queueing half of `Submit`; a `BeginBatch` for the same key follows. */
    method Submit(key: string, e: Entry, now: Time)
      modifies this
      ensures channels == old(channels)[key := Enqueued(old(StateFor(key, now)), e)]
      ensures var c := old(StateFor(key, now)); channels[key] == c.(queue := c.queue + [e])
    {
      var cs := StateFor(key, now);
      channels := channels[key := cs.(queue := cs.queue + [e])];
    }

    /** `drainKey` up to the first unlock: the dequeue loop and the sending flag. */
    method BeginBatch(key: string, now: Time) returns (ready: seq<Entry>)
      modifies this
      ensures key !in old(channels) ==> ready == [] && channels == old(channels)
      ensures key in old(channels) ==>
                && ready == Ready(old(channels)[key], now)
                && channels == old(channels)[key := Drained(old(channels)[key], now)]
      ensures key in old(channels) && old(channels)[key].sending ==> ready == [] && channels == old(channels)
      ensures key in old(channels) && !old(channels)[key].sending ==>
                var c, k := Refill(old(channels)[key], now), |ready|;
                && k <= |c.queue| && ready == c.queue[..k] && (k == 0 || k as real <= c.tokens)
                && channels[key] == Channel(c.limit, c.tokens - k as real, c.lastRefill, c.queue[k..], k > 0)
                && (k < |c.queue| ==> channels[key].tokens < 1.0)
    {
      ready := [];
      if key !in channels || channels[key].sending {
        return;
      }
      var cs := Refill(channels[key], now);
      ghost var start := cs;
      ghost var total := ReadyCount(start.tokens, |start.queue|);
      while cs.tokens >= 1.0 && |cs.queue| > 0
        invariant |ready| <= total
        invariant ready == start.queue[..|ready|]
        invariant cs == start.(tokens := start.tokens - |ready| as real, queue := start.queue[|ready|..])
        invariant total == |ready| + ReadyCount(cs.tokens, |cs.queue|)
        decreases |cs.queue|
      {
        var e := cs.queue[0];
        cs := cs.(queue := cs.queue[1..], tokens := cs.tokens - 1.0);
        ready := ready + [e];
      }
      if |ready| > 0 {
        cs := cs.(sending := true);
      }
      channels := channels[key := cs];
    }

    /** `drainKey`'s last critical section. */
    method EndBatch(key: string)
      requires key in channels
      modifies this
      ensures channels == old(channels)[key := old(channels)[key].(sending := false)]
    {
      channels := channels[key := channels[key].(sending := false)];
    }

    method State(key: string, now: Time) returns (queued: nat, nextIn: real)
      modifies this
      ensures key !in old(channels) ==> queued == 0 && nextIn == 0.0 && channels == old(channels)
      ensures key in old(channels) ==>
                var r := Refill(old(channels)[key], now);
                channels == old(channels)[key := r] && queued == |r.queue| && nextIn == NextIn(r)
      ensures key in old(channels) ==>
                var r := Refill(old(channels)[key], now);
                if r.tokens >= 1.0 || r.queue == [] || r.limit.RefillPerSec() == 0.0 then nextIn == 0.0
                else nextIn * r.limit.RefillPerSec() == 1.0 - r.tokens
    {
      if key !in channels {
        return 0, 0.0;
      }
      var cs := Refill(channels[key], now);
      channels := channels[key := cs];
      queued := |cs.queue|;
      if cs.tokens >= 1.0 || |cs.queue| == 0 {
        return queued, 0.0;
      }
      var rps := cs.limit.RefillPerSec();
      if rps <= 0.0 {
        return queued, 0.0;
      }
      nextIn := (1.0 - cs.tokens) / rps;
    }
  }

  // ---- one channel under concurrency ----

  /** A value handed to the result channel of one submission. */
  datatype Delivery = Delivery(entry: Entry, outcome: Outcome)

  /**
    One channel together with the goroutines draining it.  `workers` holds the
    unsent rest of each goroutine's batch; that there is at most one is proved,
    not assumed.  `submitted`, `delivered` and `dequeues` (the refill clock at
    each dequeue) are the history.
   */
  datatype System = System(
    ch: Channel,
    workers: map<nat, seq<Entry>>,
    submitted: nat,
    delivered: seq<Delivery>,
    dequeues: seq<Time>)

  /** Every clock reading is free, so a reading taken before a lock may be stale. */
  datatype Step =
    | Enqueue
    | Begin(worker: nat, now: Time)
    | RunOne(worker: nat, outcome: Outcome)
    | End(worker: nat)
    | SetLimit(limit: Limit)
    | Penalize(wait: real, now: Time)
    | ReadState(now: Time)

  predicate Enabled(s: System, step: Step) {
    match step
    case Begin(w, _) => w !in s.workers
    case RunOne(w, _) => w in s.workers && s.workers[w] != []
    case End(w) => w in s.workers && s.workers[w] == []
    case _ => true
  }

  function Apply(s: System, step: Step): System
    requires Enabled(s, step)
  {
    match step
    case Enqueue => s.(ch := Enqueued(s.ch, s.submitted), submitted := s.submitted + 1)
    case Begin(w, now) =>
      var ready, ch := Ready(s.ch, now), Drained(s.ch, now);
      if ready == [] then s.(ch := ch)
      else s.(ch := ch,
              workers := s.workers[w := ready],
              dequeues := s.dequeues + seq(|ready|, _ => ch.lastRefill))
    case RunOne(w, o) =>
      s.(workers := s.workers[w := s.workers[w][1..]],
         delivered := s.delivered + [Delivery(s.workers[w][0], o)])
    case End(w) => s.(ch := s.ch.(sending := false), workers := s.workers - {w})
    case SetLimit(l) => s.(ch := Relimit(s.ch, l))
    case Penalize(wait, now) => s.(ch := Penalized(s.ch, wait, now))
    case ReadState(now) => s.(ch := Refill(s.ch, now))
  }

  ghost predicate Legal(s: System, steps: seq<Step>)
    decreases |steps|
  {
    steps == [] || (Enabled(s, steps[0]) && Legal(Apply(s, steps[0]), steps[1..]))
  }

  ghost function Exec(s: System, steps: seq<Step>): System
    requires Legal(s, steps)
    decreases |steps|
  {
    if steps == [] then s else Exec(Apply(s, steps[0]), steps[1..])
  }

  function Initial(def: Limit, now: Time): System {
    System(Fresh(def, now), map[], 0, [], [])
  }

  // ---- order and exactly-once delivery ----

  /** The flag is up exactly while one goroutine owns a batch. */
  ghost predicate Exclusive(s: System) {
    && (s.ch.sending <==> s.workers != map[])
    && (forall v, w :: v in s.workers && w in s.workers ==> v == w)
  }

  /** The unsent rest of the batch in flight. */
  ghost function InFlight(s: System): seq<Entry> {
    if s.workers == map[] then []
    else
      assert s.workers.Keys != {};
      var w :| w in s.workers.Keys; s.workers[w]
  }

  /** Delivered, in flight and queued submissions, in that order, are all submissions in order. */
  ghost predicate InOrder(s: System) {
    var d, f := |s.delivered|, |InFlight(s)|;
    && s.submitted == d + f + |s.ch.queue|
    && (forall k :: 0 <= k < d ==> s.delivered[k].entry == k)
    && (forall k :: 0 <= k < f ==> InFlight(s)[k] == d + k)
    && (forall k :: 0 <= k < |s.ch.queue| ==> s.ch.queue[k] == d + f + k)
  }

  /** No operation leaves more tokens in the bucket than the burst. */
  ghost predicate Clamped(c: Channel) {
    c.tokens <= c.limit.burst as real
  }

  ghost predicate Sound(s: System) {
    Exclusive(s) && InOrder(s) && Clamped(s.ch)
  }

  lemma InFlightIs(s: System, w: nat)
    requires Exclusive(s) && w in s.workers
    ensures s.workers.Keys == {w} && InFlight(s) == s.workers[w]
  {
    assert s.workers != map[];
  }

  lemma BeginKeepsSound(s: System, w: nat, now: Time)
    requires Sound(s) && w !in s.workers
    ensures Sound(Apply(s, Begin(w, now)))
  {
    var t, ready := Apply(s, Begin(w, now)), Ready(s.ch, now);
    if ready != [] {
      assert s.workers == map[] && t.workers == map[w := ready];
      InFlightIs(t, w);
      assert forall k :: 0 <= k < |t.ch.queue| ==> t.ch.queue[k] == s.ch.queue[|ready| + k];
    } else {
      assert t.workers == s.workers && InFlight(t) == InFlight(s);
    }
  }

  lemma RunOneKeepsSound(s: System, w: nat, o: Outcome)
    requires Sound(s) && Enabled(s, RunOne(w, o))
    ensures Sound(Apply(s, RunOne(w, o)))
  {
    var t := Apply(s, RunOne(w, o));
    InFlightIs(s, w);
    assert t.workers.Keys == s.workers.Keys && w in t.workers;
    InFlightIs(t, w);
  }

  lemma StepKeepsSound(s: System, step: Step)
    requires Sound(s) && Enabled(s, step)
    ensures Sound(Apply(s, step))
  {
    var t := Apply(s, step);
    match step
    case Begin(w, now) => BeginKeepsSound(s, w, now);
    case RunOne(w, o) => RunOneKeepsSound(s, w, o);
    case End(w) =>
      InFlightIs(s, w);
      assert t.workers.Keys == {};
      assert t.workers == map[];
    case _ =>
      assert t.workers == s.workers && InFlight(t) == InFlight(s);
  }

  lemma {:induction false} RunKeepsSound(s: System, steps: seq<Step>)
    requires Sound(s) && Legal(s, steps)
    ensures Sound(Exec(s, steps))
    decreases |steps|
  {
    if steps != [] {
      StepKeepsSound(s, steps[0]);
      RunKeepsSound(Apply(s, steps[0]), steps[1..]);
    }
  }

  /** How many values submission `e`'s result channel has received. */
  ghost function Received(delivered: seq<Delivery>, e: Entry): nat {
    |set k | 0 <= k < |delivered| && delivered[k].entry == e|
  }

  /**
    In every run, whatever the interleaving: results are delivered in submission
    order, no result channel receives a second value, and the ones that have
    received none are exactly the sends still in flight or queued.
   */
  lemma SendsAreFifoAndExactlyOnce(def: Limit, now: Time, steps: seq<Step>, e: Entry)
    requires Legal(Initial(def, now), steps)
    ensures var s := Exec(Initial(def, now), steps);
            && Sound(s)
            && (e < s.submitted ==>
                  && Received(s.delivered, e) <= 1
                  && (Received(s.delivered, e) == 0 <==> e in InFlight(s) || e in s.ch.queue))
  {
    RunKeepsSound(Initial(def, now), steps);
    var s := Exec(Initial(def, now), steps);
    if e < s.submitted {
      var ks := set k | 0 <= k < |s.delivered| && s.delivered[k].entry == e;
      var d, f := |s.delivered|, |InFlight(s)|;
      if e < d {
        assert ks == {e};
        assert e !in InFlight(s) && e !in s.ch.queue;
      } else {
        assert ks == {};
        if e < d + f {
          assert InFlight(s)[e - d] == e;
        } else {
          assert s.ch.queue[e - d - f] == e;
        }
      }
    }
  }

  // ---- the rate bound ----

  // Products of reals, kept out of the larger proofs.

  lemma Scale(x: real, r: real, q: real)
    requires x >= 0.0 && 0.0 <= r <= q
    ensures 0.0 <= x * r <= x * q
  {
  }

  lemma Strict(x: real, y: real, r: real)
    requires r > 0.0
    ensures x < y ==> x * r < y * r
    ensures x <= y ==> x * r <= y * r
  {
  }

  lemma Split(from: real, until: real, r: real)
    ensures (until - from) * r == until * r - from * r
  {
  }

  /** A ceiling on the limits in force: at most `burst` tokens, refilled at most at `rate`. */
  datatype Cap = Cap(burst: real, rate: real)

  function CapOf(l: Limit): Cap {
    Cap(l.burst as real, l.RefillPerSec())
  }

  ghost predicate Within(l: Limit, cap: Cap) {
    l.burst as real <= cap.burst && l.RefillPerSec() <= cap.rate
  }

  /** The most a bucket under `cap` can pay for between two refill-clock readings. */
  ghost function Allowance(cap: Cap, since: Time, until: Time): real {
    cap.burst + until * cap.rate - since * cap.rate
  }

  /**
    Counting from any past dequeue, the dequeues so far plus the tokens left
    never exceed the allowance; and the bound held at every past dequeue too.
   */
  ghost predicate Paced(s: System, cap: Cap) {
    var n := |s.dequeues|;
    && Within(s.ch.limit, cap)
    && s.ch.tokens <= cap.burst
    && (forall a :: 0 <= a < n ==>
          && s.dequeues[a] <= s.ch.lastRefill
          && (n - a) as real + s.ch.tokens <= Allowance(cap, s.dequeues[a], s.ch.lastRefill))
    && PacedPairs(s.dequeues, cap)
  }

  ghost predicate PacedPairs(dequeues: seq<Time>, cap: Cap) {
    forall a, b :: 0 <= a <= b < |dequeues| ==>
      && dequeues[a] <= dequeues[b]
      && (b - a + 1) as real <= Allowance(cap, dequeues[a], dequeues[b])
  }

  /** A refill never earns more than the elapsed refill clock is worth. */
  lemma RefillEarns(c: Channel, now: Time, rate: real)
    requires c.limit.RefillPerSec() <= rate
    ensures var r := Refill(c, now);
            && c.lastRefill * rate <= r.lastRefill * rate
            && r.tokens <= c.tokens + r.lastRefill * rate - c.lastRefill * rate
  {
    var r := Refill(c, now);
    Scale(r.lastRefill - c.lastRefill, c.limit.RefillPerSec(), rate);
    Split(c.lastRefill, r.lastRefill, rate);
  }

  lemma RefillKeepsPaced(s: System, cap: Cap, now: Time)
    requires Paced(s, cap)
    ensures Paced(s.(ch := Refill(s.ch, now)), cap)
  {
    RefillEarns(s.ch, now, cap.rate);
    var n, r := |s.dequeues|, Refill(s.ch, now);
    forall a | 0 <= a < n
      ensures s.dequeues[a] <= r.lastRefill && (n - a) as real + r.tokens <= Allowance(cap, s.dequeues[a], r.lastRefill)
    {
      EarnedStays(cap, s.dequeues[a], s.ch.lastRefill, r.lastRefill, (n - a) as real, s.ch.tokens, r.tokens);
    }
  }

  lemma EarnedStays(cap: Cap, since: Time, from: Time, to: Time, count: real, before: real, after: real)
    requires count + before <= Allowance(cap, since, from) && after <= before + to * cap.rate - from * cap.rate
    ensures count + after <= Allowance(cap, since, to)
  {
  }

  /** Taking `k` paid-for entries at the current refill clock. */
  lemma DequeueKeepsPaced(s: System, cap: Cap, k: nat, t: System)
    requires Paced(s, cap)
    requires k as real <= s.ch.tokens
    requires t.ch.limit == s.ch.limit && t.ch.lastRefill == s.ch.lastRefill
    requires t.ch.tokens == s.ch.tokens - k as real
    requires t.dequeues == s.dequeues + seq(k, _ => s.ch.lastRefill)
    ensures Paced(t, cap)
  {
    var n, clock := |s.dequeues|, s.ch.lastRefill;
    forall a, b | 0 <= a <= b < |t.dequeues|
      ensures t.dequeues[a] <= t.dequeues[b]
      ensures (b - a + 1) as real <= Allowance(cap, t.dequeues[a], t.dequeues[b])
    {
      if b < n {
        assert t.dequeues[a] == s.dequeues[a] && t.dequeues[b] == s.dequeues[b];
      } else if a < n {
        assert t.dequeues[a] == s.dequeues[a] && t.dequeues[b] == clock;
        assert (n - a) as real + s.ch.tokens <= Allowance(cap, s.dequeues[a], clock);
        assert (b - a + 1) as real <= (n - a) as real + k as real;
        assert (b - a + 1) as real <= Allowance(cap, s.dequeues[a], clock);
      } else {
        assert t.dequeues[a] == clock && t.dequeues[b] == clock;
        assert (b - a + 1) as real <= k as real;
        assert (b - a + 1) as real <= cap.burst;
        assert Allowance(cap, clock, clock) == cap.burst;
      }
    }
  }

  lemma StepKeepsPaced(s: System, cap: Cap, step: Step)
    requires Enabled(s, step) && Paced(s, cap)
    requires step.SetLimit? ==> Within(step.limit, cap)
    ensures Paced(Apply(s, step), cap)
  {
    match step
    case Begin(w, now) =>
      if !s.ch.sending {
        RefillKeepsPaced(s, cap, now);
        var k := |Ready(s.ch, now)|;
        if k > 0 {
          DequeueKeepsPaced(s.(ch := Refill(s.ch, now)), cap, k, Apply(s, step));
        }
      }
    case Penalize(_, now) => RefillKeepsPaced(s, cap, now);
    case ReadState(now) => RefillKeepsPaced(s, cap, now);
    case _ =>
  }

  lemma {:induction false} RunKeepsPaced(s: System, cap: Cap, steps: seq<Step>)
    requires Paced(s, cap) && Legal(s, steps)
    requires forall i :: 0 <= i < |steps| && steps[i].SetLimit? ==> Within(steps[i].limit, cap)
    ensures Paced(Exec(s, steps), cap)
    decreases |steps|
  {
    if steps != [] {
      StepKeepsPaced(s, cap, steps[0]);
      RunKeepsPaced(Apply(s, steps[0]), cap, steps[1..]);
    }
  }

  /** The dequeues made while the refill clock lay in [since, until]. */
  ghost function DequeuesWithin(dequeues: seq<Time>, since: Time, until: Time): set<int> {
    set i | 0 <= i < |dequeues| && since <= dequeues[i] <= until
  }

  lemma {:induction false} IntervalSize(xs: set<int>, lo: int, hi: int)
    requires forall x :: x in xs ==> lo <= x <= hi
    ensures |xs| <= if lo <= hi then hi - lo + 1 else 0
    decreases hi - lo
  {
    if lo <= hi {
      IntervalSize(xs - {hi}, lo, hi - 1);
      assert xs <= (xs - {hi}) + {hi};
    } else {
      assert forall x :: x !in xs;
      assert xs == {};
    }
  }

  lemma WindowBound(dequeues: seq<Time>, cap: Cap, since: Time, until: Time)
    requires PacedPairs(dequeues, cap) && since <= until && cap.rate >= 0.0
    ensures var count := |DequeuesWithin(dequeues, since, until)| as real;
            count == 0.0 || count <= Allowance(cap, since, until)
  {
    var a, b := 0, |dequeues| - 1;
    while a < |dequeues| && dequeues[a] < since
      invariant 0 <= a <= |dequeues| && forall i :: 0 <= i < a ==> dequeues[i] < since
    {
      a := a + 1;
    }
    while b >= 0 && dequeues[b] > until
      invariant -1 <= b < |dequeues| && forall i :: b < i < |dequeues| ==> dequeues[i] > until
    {
      b := b - 1;
    }
    IntervalSize(DequeuesWithin(dequeues, since, until), a, b);
    if a <= b {
      PairFitsWindow(cap, dequeues[a], dequeues[b], since, until);
    }
  }

  lemma PairFitsWindow(cap: Cap, a: Time, b: Time, since: Time, until: Time)
    requires since <= a <= b <= until && cap.rate >= 0.0
    ensures Allowance(cap, a, b) <= Allowance(cap, since, until)
  {
    var r := cap.rate;
    Scale(a - since, r, r);
    Scale(until - b, r, r);
    Split(since, a, r);
    Split(b, until, r);
  }

  /** What a limit admits over `span` seconds: burst + burst * span / window. */
  ghost function Quota(l: Limit, span: real): real {
    l.burst as real + if l.window > 0.0 && l.burst > 0 then l.burst as real * span / l.window else 0.0
  }

  lemma QuotaIsAllowance(l: Limit, since: Time, until: Time)
    ensures Quota(l, until - since) == Allowance(CapOf(l), since, until)
  {
    Split(since, until, l.RefillPerSec());
    if l.window > 0.0 && l.burst > 0 {
      SpanQuota(l.burst as real, until - since, l.window, l.RefillPerSec());
    }
  }

  lemma SpanQuota(burst: real, span: real, window: real, rate: real)
    requires window > 0.0 && rate * window == burst
    ensures burst * span / window == span * rate
  {
    assert burst * span == (span * rate) * window;
  }

  /**
    The rate bound over whole runs: with the limit fixed, whatever the
    interleaving and however stale the clock readings, the entries dequeued while
    the refill clock lay in [since, until] number at most
    burst + burst * (until - since) / window.
   */
  lemma RateBound(limit: Limit, start: Time, steps: seq<Step>, since: Time, until: Time)
    requires Legal(Initial(limit, start), steps)
    requires forall i :: 0 <= i < |steps| ==> !steps[i].SetLimit?
    requires since <= until
    ensures var count := |DequeuesWithin(Exec(Initial(limit, start), steps).dequeues, since, until)| as real;
            count == 0.0 || count <= Quota(limit, until - since)
  {
    RunKeepsPaced(Initial(limit, start), CapOf(limit), steps);
    WindowBound(Exec(Initial(limit, start), steps).dequeues, CapOf(limit), since, until);
    QuotaIsAllowance(limit, since, until);
  }

  // ---- penalties ----

  /** While no limit refills faster than `rate`, the bucket has climbed from `floor` at `from` by refilling only. */
  ghost predicate Held(s: System, rate: real, from: Time, floor: real, n: nat) {
    && s.ch.limit.RefillPerSec() <= rate
    && n <= |s.dequeues|
    && s.ch.tokens <= floor + s.ch.lastRefill * rate - from * rate
    && (forall i :: n <= i < |s.dequeues| ==> 1.0 <= floor + s.dequeues[i] * rate - from * rate)
  }

  ghost predicate NoFaster(step: Step, rate: real) {
    step.SetLimit? ==> step.limit.RefillPerSec() <= rate
  }

  lemma RefillKeepsHeld(s: System, rate: real, from: Time, floor: real, n: nat, now: Time)
    requires Held(s, rate, from, floor, n)
    ensures Held(s.(ch := Refill(s.ch, now)), rate, from, floor, n)
  {
    RefillEarns(s.ch, now, rate);
  }

  /** Tokens may be taken away, and entries dequeued only while a token was there. */
  lemma SpendingKeepsHeld(s: System, rate: real, from: Time, floor: real, n: nat, k: nat, t: System)
    requires Held(s, rate, from, floor, n)
    requires t.ch.limit.RefillPerSec() <= rate && t.ch.lastRefill == s.ch.lastRefill && t.ch.tokens <= s.ch.tokens
    requires k > 0 ==> s.ch.tokens >= 1.0
    requires t.dequeues == s.dequeues + seq(k, _ => s.ch.lastRefill)
    ensures Held(t, rate, from, floor, n)
  {
    forall i | n <= i < |t.dequeues|
      ensures 1.0 <= floor + t.dequeues[i] * rate - from * rate
    {
      assert t.dequeues[i] == if i < |s.dequeues| then s.dequeues[i] else s.ch.lastRefill;
    }
  }

  lemma StepKeepsHeld(s: System, rate: real, from: Time, floor: real, n: nat, step: Step)
    requires Enabled(s, step) && NoFaster(step, rate) && Held(s, rate, from, floor, n)
    ensures Held(Apply(s, step), rate, from, floor, n)
  {
    var t := Apply(s, step);
    if step.Begin? || step.Penalize? || step.ReadState? {
      var r := s.(ch := if step.Begin? && s.ch.sending then s.ch else Refill(s.ch, step.now));
      RefillKeepsHeld(s, rate, from, floor, n, step.now);
      var k := if step.Begin? then |Ready(s.ch, step.now)| else 0;
      SpendingKeepsHeld(r, rate, from, floor, n, k, t);
    } else {
      SpendingKeepsHeld(s, rate, from, floor, n, 0, t);
    }
  }

  lemma {:induction false} RunKeepsHeld(s: System, rate: real, from: Time, floor: real, n: nat, steps: seq<Step>)
    requires Legal(s, steps) && Held(s, rate, from, floor, n)
    requires forall i :: 0 <= i < |steps| ==> NoFaster(steps[i], rate)
    ensures Held(Exec(s, steps), rate, from, floor, n)
    decreases |steps|
  {
    if steps != [] {
      StepKeepsHeld(s, rate, from, floor, n, steps[0]);
      RunKeepsHeld(Apply(s, steps[0]), rate, from, floor, n, steps[1..]);
    }
  }

  /** `d` is at least `wait`, and at least one refill interval, after `now`. */
  ghost predicate Late(d: real, now: real, wait: real, rate: real) {
    rate > 0.0 && d - now >= wait && (d - now) * rate >= 1.0
  }

  /**
    After `Penalize(wait)` read the clock at `now`, and until a faster limit is set,
    every entry that leaves the queue does so at least `wait` seconds and at
    least one refill interval later; with no refill, none ever leaves.
   */
  lemma PenaltyHoldsTheQueue(s: System, wait: real, now: Time, p: System, steps: seq<Step>, i: nat)
    requires p == Apply(s, Penalize(wait, now)) && Legal(p, steps)
    requires forall k :: 0 <= k < |steps| ==> NoFaster(steps[k], s.ch.limit.RefillPerSec())
    requires |s.dequeues| <= i < |Exec(p, steps).dequeues|
    ensures Late(Exec(p, steps).dequeues[i], now, wait, s.ch.limit.RefillPerSec())
  {
    var rate := s.ch.limit.RefillPerSec();
    var floor := PenaltyStartsHold(s, wait, now, p, rate);
    RunKeepsHeld(p, rate, p.ch.lastRefill, floor, |s.dequeues|, steps);
    HeldDequeueIsLate(Exec(p, steps), rate, p.ch.lastRefill, floor, |s.dequeues|, i, now, wait);
  }

  lemma HeldDequeueIsLate(
    s: System, rate: real, from: Time, floor: real, n: nat, i: nat, now: Time, wait: real)
    requires Held(s, rate, from, floor, n) && n <= i < |s.dequeues|
    requires now <= from && floor <= 0.0 && floor <= 1.0 - wait * rate
    ensures Late(s.dequeues[i], now, wait, rate)
  {
    LongEnough(from, now, s.dequeues[i], wait, rate, floor);
  }

  lemma PenaltyStartsHold(s: System, wait: real, now: Time, p: System, rate: real) returns (floor: real)
    requires p == Apply(s, Penalize(wait, now)) && rate == s.ch.limit.RefillPerSec()
    ensures floor <= 0.0 && floor <= 1.0 - wait * rate
    ensures Held(p, rate, p.ch.lastRefill, floor, |s.dequeues|)
    ensures now <= p.ch.lastRefill
  {
    floor := Min(Deficit(s.ch.limit, wait), 0.0);
  }

  lemma LongEnough(from: real, now: real, d: real, wait: real, rate: real, floor: real)
    requires rate >= 0.0 && now <= from && floor <= 0.0 && floor <= 1.0 - wait * rate
    requires 1.0 <= floor + d * rate - from * rate
    ensures Late(d, now, wait, rate)
  {
    var p := (d - from) * rate;
    assert p == d * rate - from * rate;
    assert p >= 1.0 - floor;
    assert wait * rate <= 1.0 - floor;
    assert p >= 1.0;
    assert rate > 0.0;
    Cancel(d - from, wait, rate);
    Scale(from - now, rate, rate);
    assert (d - now) * rate == p + (from - now) * rate;
  }

  lemma Cancel(x: real, y: real, r: real)
    requires r > 0.0
    ensures x * r >= y * r ==> x >= y
  {
    if x < y {
      assert (y - x) * r > 0.0;
    }
  }

  // ---- the countdown ----

  /** A drain `w` seconds past the refill clock takes something out of the queue. */
  ghost predicate DrainMoves(c: Channel, w: real)
    requires w >= 0.0
  {
    Ready(c, c.lastRefill + w) != []
  }

  /** The reported countdown is exactly the least wait after which a drain moves the queue. */
  ghost predicate CountdownExact(c: Channel) {
    forall w :: w >= 0.0 ==> (DrainMoves(c, w) <==> w >= NextIn(c))
  }

  /**
    For an idle channel with a nonempty queue that `State` has just refilled, the
    countdown is exact if and only if a token is already there, or the limit
    refills and the refill clock is past the zero time.  A limit that never
    refills reports 0 while its queue is stuck.
   */
  lemma CountdownExactIff(c: Channel)
    requires !c.sending && c.queue != [] && Clamped(c)
    ensures CountdownExact(c) <==>
            c.tokens >= 1.0 || (c.limit.RefillPerSec() > 0.0 && c.lastRefill > 0.0)
  {
    var rate := c.limit.RefillPerSec();
    if c.tokens >= 1.0 {
      forall w | w >= 0.0 ensures DrainMoves(c, w) {
        FullEnough(c, w);
      }
    } else if rate > 0.0 && c.lastRefill > 0.0 {
      forall w | w >= 0.0 ensures DrainMoves(c, w) <==> w >= NextIn(c) {
        Countdown(c, w);
      }
    } else {
      assert !DrainMoves(c, NextIn(c)) by {
        assert Refill(c, c.lastRefill + NextIn(c)).tokens == c.tokens;
      }
    }
  }

  lemma FullEnough(c: Channel, w: real)
    requires !c.sending && c.queue != [] && 1.0 <= c.tokens <= c.limit.burst as real && w >= 0.0
    ensures DrainMoves(c, w)
  {
    Scale(w, c.limit.RefillPerSec(), c.limit.RefillPerSec());
    assert Refill(c, c.lastRefill + w).tokens >= 1.0;
  }

  lemma Countdown(c: Channel, w: real)
    requires !c.sending && c.queue != [] && c.tokens < 1.0 && c.lastRefill > 0.0 && w >= 0.0
    requires c.limit.RefillPerSec() > 0.0
    ensures DrainMoves(c, w) <==> w >= NextIn(c)
  {
    var r := Refill(c, c.lastRefill + w);
    assert DrainMoves(c, w) <==> r.tokens >= 1.0;
    Reaches(c.tokens, c.limit.RefillPerSec(), w);
  }

  /** A bucket at `tokens` refilling at `rate` holds a token after `w` iff `w` covers the shortfall. */
  lemma Reaches(tokens: real, rate: real, w: real)
    requires rate > 0.0
    ensures tokens + w * rate >= 1.0 <==> w >= (1.0 - tokens) / rate
  {
    var need := (1.0 - tokens) / rate;
    assert need * rate == 1.0 - tokens;
    Strict(need, w, rate);
    Strict(w, need, rate);
  }
}
