/**
  Fan-out to sinks (internal/pipeline/runner.go): one dispatcher pushes every
  event into each sink's bounded buffer, dropping that sink's oldest event when
  the buffer is full; each sink's worker drains its own buffer.
 */
module Pipeline {

  // ---- one push, with the worker draining meanwhile ----

  function Drop<T>(s: seq<T>, n: nat): seq<T> {
    if n <= |s| then s[n..] else []
  }

  /** How many leave a full buffer: what the worker takes, and one dropped unless the worker emptied it first. */
  function Gone(before: nat, after: nat, capacity: nat): (n: nat)
    ensures n <= capacity
  {
    if before >= capacity then capacity else if before + 1 + after >= capacity then capacity else before + 1 + after
  }

  class SinkWorker<E> {
    const capacity: nat
    var ch: seq<E>
    var drops: nat

    constructor (capacity: nat)
      ensures this.capacity == capacity && ch == [] && drops == 0
    {
      this.capacity := capacity;
      ch, drops := [], 0;
    }

    /**
      The retry loop.  `taken(r, 0)` and `taken(r, 1)` say how many events the
      worker removes in round `r` before the drop and after it; whatever they
      are, the second round's send succeeds.
     */
    method Push(ev: E, taken: (nat, nat) -> nat) returns (rounds: nat)
      requires capacity > 0 && |ch| <= capacity
      modifies this`ch, this`drops
      ensures |ch| <= capacity && rounds <= 2
      ensures old(drops) <= drops <= old(drops) + 1
      ensures |old(ch)| == capacity ==>
                && ch == old(ch)[Gone(taken(1, 0), taken(1, 1), capacity)..] + [ev]
                && drops == old(drops) + if taken(1, 0) < capacity then 1 else 0
      ensures |old(ch)| < capacity ==> drops == old(drops) && ch == old(ch) + [ev]
    {
      rounds := 0;
      ghost var gone: nat := 0;
      while true
        invariant rounds <= 1 && gone <= |old(ch)| && ch == old(ch)[gone..]
        invariant rounds == 0 ==> gone == 0 && drops == old(drops)
        invariant rounds == 1 ==> |ch| < capacity && |old(ch)| == capacity
        invariant rounds == 1 ==> gone == Gone(taken(1, 0), taken(1, 1), capacity)
        invariant drops == old(drops) + if rounds == 1 && taken(1, 0) < capacity then 1 else 0
        decreases 1 - rounds
      {
        rounds := rounds + 1;
        if |ch| < capacity {
          ch := ch + [ev];
          return;
        }
        gone := if taken(rounds, 0) <= |ch| then gone + taken(rounds, 0) else |old(ch)|;
        ch := Drop(ch, taken(rounds, 0));
        if ch != [] {
          ch := ch[1..];
          drops := drops + 1;
          gone := gone + 1;
        }
        gone := if taken(rounds, 1) <= |ch| then gone + taken(rounds, 1) else |old(ch)|;
        ch := Drop(ch, taken(rounds, 1));
      }
    }
  }

  // ---- one sink under every interleaving ----

  /** Where the dispatcher stands in the push of event `ev`; `round` counts its sends. */
  datatype PushState = Idle | Sending(ev: nat, round: nat) | Refused(ev: nat, round: nat)

  /** Events are named by their place in the dispatch order; `next` is how many were pushed. */
  datatype Sink = Sink(
    capacity: nat, next: nat, push: PushState,
    buffered: seq<nat>, inFlight: seq<nat>, consumed: seq<nat>,
    dropped: seq<nat>, drops: nat)

  datatype Step = BeginPush | TrySend | DropOldest | WorkerTakes | WorkerDone

  predicate Can(s: Sink, step: Step) {
    match step
    case BeginPush => s.push.Idle?
    case TrySend => s.push.Sending?
    case DropOldest => s.push.Refused?
    case WorkerTakes => s.inFlight == [] && s.buffered != []
    case WorkerDone => s.inFlight != []
  }

  function Do(s: Sink, step: Step): Sink
    requires Can(s, step)
  {
    match step
    case BeginPush => s.(push := Sending(s.next, 1), next := s.next + 1)
    case TrySend =>
      if |s.buffered| < s.capacity then s.(buffered := s.buffered + [s.push.ev], push := Idle)
      else s.(push := Refused(s.push.ev, s.push.round))
    case DropOldest =>
      var again := Sending(s.push.ev, s.push.round + 1);
      if s.buffered == [] then s.(push := again)
      else s.(push := again, buffered := s.buffered[1..],
              dropped := s.dropped + [s.buffered[0]], drops := s.drops + 1)
    case WorkerTakes => s.(inFlight := [s.buffered[0]], buffered := s.buffered[1..])
    case WorkerDone => s.(consumed := s.consumed + [s.inFlight[0]], inFlight := s.inFlight[1..])
  }

  function Start(capacity: nat): Sink {
    Sink(capacity, 0, Idle, [], [], [], [], 0)
  }

  ghost predicate CanAll(s: Sink, steps: seq<Step>)
    decreases |steps|
  {
    steps == [] || (Can(s, steps[0]) && CanAll(Do(s, steps[0]), steps[1..]))
  }

  ghost function DoAll(s: Sink, steps: seq<Step>): Sink
    requires CanAll(s, steps)
    decreases |steps|
  {
    if steps == [] then s else DoAll(Do(s, steps[0]), steps[1..])
  }

  /** What the sink has been given and not lost, oldest first. */
  ghost function Kept(s: Sink): seq<nat> {
    s.consumed + s.inFlight + s.buffered
  }

  ghost predicate Ascending(xs: seq<nat>) {
    forall i, j :: 0 <= i < j < |xs| ==> xs[i] < xs[j]
  }

  /** Events already placed: all pushed ones, less the one whose push is under way. */
  ghost function Settled(s: Sink): int {
    if s.push.Idle? then s.next else s.next - 1
  }

  ghost predicate Accounted(s: Sink) {
    && Ascending(Kept(s)) && Ascending(s.dropped)
    && (forall x :: x in Kept(s) ==> x < Settled(s) && x !in s.dropped)
    && (forall x :: x in s.dropped ==> x < Settled(s))
    && (forall x :: 0 <= x < Settled(s) ==> x in Kept(s) || x in s.dropped)
    && (forall x, i :: x in s.dropped && 0 <= i < |s.buffered| ==> x < s.buffered[i])
    && s.drops == |s.dropped|
  }

  ghost predicate Inv(s: Sink) {
    && s.capacity > 0 && |s.buffered| <= s.capacity && |s.inFlight| <= 1
    && Accounted(s)
    && (!s.push.Idle? ==> s.push.ev == s.next - 1)
    && (s.push.Sending? ==> 1 <= s.push.round <= 2 && (s.push.round == 2 ==> |s.buffered| < s.capacity))
    && (s.push.Refused? ==> s.push.round == 1)
    && (s.push.Idle? && s.next > 0 ==> s.next - 1 in Kept(s))
  }

  lemma AscendingSnoc(xs: seq<nat>, x: nat)
    requires Ascending(xs) && forall y :: y in xs ==> y < x
    ensures Ascending(xs + [x])
  {
    forall i, j | 0 <= i < j < |xs + [x]| ensures (xs + [x])[i] < (xs + [x])[j] {
      if j == |xs| {
        assert xs[i] in xs;
      }
    }
  }

  lemma AscendingWithout(front: seq<nat>, x: nat, rest: seq<nat>)
    requires Ascending(front + [x] + rest)
    ensures Ascending(front + rest)
    ensures forall y :: y in front + [x] + rest <==> y in front + rest || y == x
    ensures x !in front + rest
    ensures forall i :: 0 <= i < |rest| ==> x < rest[i]
  {
    var whole, less := front + [x] + rest, front + rest;
    forall i | 0 <= i < |less| ensures less[i] == whole[if i < |front| then i else i + 1] && less[i] != x {
      assert whole[|front|] == x;
    }
    forall i | 0 <= i < |rest| ensures x < rest[i] {
      assert whole[|front|] == x && whole[|front| + 1 + i] == rest[i];
    }
  }

  lemma SendKeepsInv(s: Sink)
    requires Inv(s) && Can(s, TrySend)
    ensures Inv(Do(s, TrySend))
  {
    var t := Do(s, TrySend);
    if t.push.Idle? {
      assert Kept(t) == Kept(s) + [s.push.ev];
      AscendingSnoc(Kept(s), s.push.ev);
    } else {
      assert Kept(t) == Kept(s);
    }
  }

  lemma DropKeepsInv(s: Sink)
    requires Inv(s) && Can(s, DropOldest)
    ensures Inv(Do(s, DropOldest))
  {
    var t := Do(s, DropOldest);
    if s.buffered == [] {
      assert Kept(t) == Kept(s);
    } else {
      var front, x := s.consumed + s.inFlight, s.buffered[0];
      assert Kept(s) == front + [x] + s.buffered[1..];
      AscendingWithout(front, x, s.buffered[1..]);
      AscendingSnoc(s.dropped, x);
      assert forall i :: 0 <= i < |t.buffered| ==> t.buffered[i] == s.buffered[i + 1];
    }
  }

  lemma StepKeepsInv(s: Sink, step: Step)
    requires Inv(s) && Can(s, step)
    ensures Inv(Do(s, step))
  {
    var t := Do(s, step);
    match step
    case BeginPush => assert Kept(t) == Kept(s);
    case TrySend => SendKeepsInv(s);
    case DropOldest => DropKeepsInv(s);
    case WorkerTakes => assert Kept(t) == Kept(s);
    case WorkerDone => assert Kept(t) == Kept(s);
  }

  lemma {:induction false} RunKeepsInv(s: Sink, steps: seq<Step>)
    requires Inv(s) && CanAll(s, steps)
    ensures Inv(DoAll(s, steps))
    decreases |steps|
  {
    if steps != [] {
      StepKeepsInv(s, steps[0]);
      RunKeepsInv(Do(s, steps[0]), steps[1..]);
    }
  }

  // ---- all sinks together ----

  /** A step of sink `k`; the dispatcher's place among the sinks is `at`. */
  datatype Move = NextEvent | Sinks(k: nat, step: Step)

  datatype Runner = Runner(sinks: seq<Sink>, at: nat, dispatched: nat)

  predicate DispatcherStep(step: Step) {
    step.BeginPush? || step.TrySend? || step.DropOldest?
  }

  /** The dispatcher pushes to one sink after another; each worker runs whenever it likes. */
  predicate MayMove(r: Runner, m: Move) {
    match m
    case NextEvent => r.at == |r.sinks|
    case Sinks(k, step) => k < |r.sinks| && Can(r.sinks[k], step) && (DispatcherStep(step) ==> k == r.at)
  }

  function Moved(r: Runner, m: Move): Runner
    requires MayMove(r, m)
  {
    match m
    case NextEvent => r.(at := 0, dispatched := r.dispatched + 1)
    case Sinks(k, step) =>
      var s := Do(r.sinks[k], step);
      r.(sinks := r.sinks[k := s], at := if step.TrySend? && s.push.Idle? then r.at + 1 else r.at)
  }

  ghost predicate MayRun(r: Runner, ms: seq<Move>)
    decreases |ms|
  {
    ms == [] || (MayMove(r, ms[0]) && MayRun(Moved(r, ms[0]), ms[1..]))
  }

  ghost function Ran(r: Runner, ms: seq<Move>): Runner
    requires MayRun(r, ms)
    decreases |ms|
  {
    if ms == [] then r else Ran(Moved(r, ms[0]), ms[1..])
  }

  function StartRunner(capacities: seq<nat>): Runner {
    Runner(seq(|capacities|, i requires 0 <= i < |capacities| => Start(capacities[i])), |capacities|, 0)
  }

  /** The steps of one sink. */
  ghost function Own(ms: seq<Move>, k: nat): seq<Step> {
    if ms == [] then []
    else (if ms[0].Sinks? && ms[0].k == k then [ms[0].step] else []) + Own(ms[1..], k)
  }

  /**
    Isolation: what a sink becomes in a run of the whole pipeline is what it
    becomes in a run of its own steps alone, whatever the other sinks do.
   */
  lemma {:induction false} SinksAreIsolated(r: Runner, ms: seq<Move>, k: nat)
    requires MayRun(r, ms) && k < |r.sinks|
    ensures CanAll(r.sinks[k], Own(ms, k))
    ensures |Ran(r, ms).sinks| == |r.sinks| && Ran(r, ms).sinks[k] == DoAll(r.sinks[k], Own(ms, k))
    decreases |ms|
  {
    if ms != [] {
      var t := Moved(r, ms[0]);
      SinksAreIsolated(t, ms[1..], k);
      var own, rest := Own(ms, k), Own(ms[1..], k);
      if ms[0].Sinks? && ms[0].k == k {
        assert own[0] == ms[0].step && own[1..] == rest;
      } else {
        assert own == rest && t.sinks[k] == r.sinks[k];
      }
    }
  }

  /** Every sink before the dispatcher's place has been pushed the current event, the others not yet. */
  ghost predicate InStep(r: Runner) {
    && r.at <= |r.sinks|
    && (forall k :: 0 <= k < |r.sinks| && k != r.at ==> r.sinks[k].push.Idle?)
    && (forall k :: 0 <= k < r.at ==> r.sinks[k].next == r.dispatched)
    && (forall k :: r.at < k < |r.sinks| ==> r.sinks[k].next == r.dispatched - 1)
    && (r.at < |r.sinks| ==> r.sinks[r.at].next == if r.sinks[r.at].push.Idle? then r.dispatched - 1 else r.dispatched)
  }

  lemma MoveKeepsInStep(r: Runner, m: Move)
    requires InStep(r) && MayMove(r, m)
    ensures InStep(Moved(r, m))
  {
  }

  lemma {:induction false} RunKeepsInStep(r: Runner, ms: seq<Move>)
    requires InStep(r) && MayRun(r, ms)
    ensures InStep(Ran(r, ms))
    decreases |ms|
  {
    if ms != [] {
      MoveKeepsInStep(r, ms[0]);
      RunKeepsInStep(Moved(r, ms[0]), ms[1..]);
    }
  }

  /**
    For each sink, in every interleaving: consumed, in-flight and buffered events
    are an in-order subsequence of the dispatched ones; `drops` counts exactly the
    missing ones, once each; between events the newest dispatched event is not
    among the missing; and no push takes more than two rounds.
   */
  lemma SinkAccounting(capacities: seq<nat>, ms: seq<Move>, k: nat)
    requires k < |capacities| && forall i :: 0 <= i < |capacities| ==> capacities[i] > 0
    requires MayRun(StartRunner(capacities), ms)
    ensures var r := Ran(StartRunner(capacities), ms);
            && |r.sinks| == |capacities|
            && var s := r.sinks[k];
               && Accounted(s) && |s.buffered| <= s.capacity
               && (s.push.Sending? ==> s.push.round <= 2)
               && (r.at == |r.sinks| ==> s.push.Idle? && s.next == r.dispatched)
               && (r.at == |r.sinks| && r.dispatched > 0 ==> r.dispatched - 1 in Kept(s))
  {
    RunnerKeeps(capacities, ms, k);
  }

  lemma RunnerKeeps(capacities: seq<nat>, ms: seq<Move>, k: nat)
    requires k < |capacities| && capacities[k] > 0 && MayRun(StartRunner(capacities), ms)
    ensures var r := Ran(StartRunner(capacities), ms);
            |r.sinks| == |capacities| && Inv(r.sinks[k]) && InStep(r)
  {
    var r0 := StartRunner(capacities);
    SinksAreIsolated(r0, ms, k);
    RunKeepsInv(r0.sinks[k], Own(ms, k));
    RunKeepsInStep(r0, ms);
  }

  /** The second send of a push cannot be refused: only the worker touches the buffer in between. */
  lemma SecondSendSucceeds(s: Sink, steps: seq<Step>)
    requires Inv(s) && s.push.Refused? && CanAll(s, [DropOldest] + steps + [TrySend])
    requires forall i :: 0 <= i < |steps| ==> steps[i].WorkerTakes? || steps[i].WorkerDone?
    ensures DoAll(s, [DropOldest] + steps + [TrySend]).push.Idle?
  {
    var all := [DropOldest] + steps + [TrySend];
    assert all[1..] == steps + [TrySend];
    StepKeepsInv(s, DropOldest);
    WorkerLeavesPush(Do(s, DropOldest), steps);
  }

  lemma {:induction false} WorkerLeavesPush(s: Sink, steps: seq<Step>)
    requires Inv(s) && s.push.Sending? && s.push.round == 2 && CanAll(s, steps + [TrySend])
    requires forall i :: 0 <= i < |steps| ==> steps[i].WorkerTakes? || steps[i].WorkerDone?
    ensures DoAll(s, steps + [TrySend]).push.Idle?
    decreases |steps|
  {
    var all := steps + [TrySend];
    if steps == [] {
      assert all == [TrySend] && all[1..] == [];
    } else {
      assert all[0] == steps[0] && all[1..] == steps[1..] + [TrySend];
      StepKeepsInv(s, steps[0]);
      WorkerLeavesPush(Do(s, steps[0]), steps[1..]);
    }
  }
}
