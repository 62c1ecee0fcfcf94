/**
  The adaptive layer over the governor (internal/ratelimit/adaptive.go): a
  rate-limit answer halves a channel's burst, a quiet stretch doubles it back.
  The layer and the governor hold different locks, so their critical sections
  are separate steps here.
 */
module AdaptiveRate {
  import opened RateLimit

  /** One channel's adaptive position. */
  datatype Position = Position(base: Limit, cur: Limit, lastStep: Time)

  function Start(base: Limit): Position {
    Position(base, base, 0.0)
  }

  /** `hit` under the adaptive lock: halve the burst, never below one. */
  function Tightened(p: Position, now: Time): Position {
    p.(cur := if p.cur.burst > 1 then p.cur.(burst := p.cur.burst / 2) else p.cur, lastStep := now)
  }

  predicate MayRecover(p: Position, quiet: real, now: Time) {
    p.cur.burst < p.base.burst && now - p.lastStep >= quiet
  }

  /** `maybeRecover` under the adaptive lock, once it may: double, up to the seed. */
  function Recovered(p: Position, now: Time): Position {
    var doubled := p.cur.burst * 2;
    p.(cur := p.cur.(burst := if doubled > p.base.burst then p.base.burst else doubled), lastStep := now)
  }

  // ---- the adaptive object ----

  class Adaptive {
    const g: Governor
    const def: Limit
    var quiet: real
    var seeds: map<string, Limit>
    var per: map<string, Position>

    constructor (g: Governor, def: Limit)
      ensures this.g == g && this.def == def && quiet == 60.0 && seeds == map[] && per == map[]
    {
      this.g := g;
      this.def := def;
      quiet := 60.0;
      seeds := map[];
      per := map[];
    }

    /** The limit a key starts from: the seed with the longest prefix of it, or the default. */
    ghost predicate IsSeed(best: Limit, key: string)
      reads this`seeds
    {
      && ((forall p :: p in seeds ==> !(p <= key)) ==> best == def)
      && (forall p :: p in seeds && p <= key && (forall q :: q in seeds && q <= key ==> |q| <= |p|)
                      ==> best == seeds[p])
    }

    /** Map order does not matter. */
    method BaseFor(key: string) returns (best: Limit)
      ensures IsSeed(best, key)
    {
      var bestLen := -1;
      best := def;
      ghost var chosen: string := "";
      var rest := seeds.Keys;
      while rest != {}
        invariant rest <= seeds.Keys
        invariant bestLen >= -1 && (bestLen == -1 ==> best == def)
        invariant bestLen >= 0 ==> chosen in seeds && chosen <= key && bestLen == |chosen| && best == seeds[chosen]
        invariant forall q :: q in seeds && q !in rest && q <= key ==> |q| <= bestLen
        decreases rest
      {
        var p :| p in rest;
        if p <= key && |p| > bestLen {
          best, bestLen := seeds[p], |p|;
          chosen := p;
        }
        rest := rest - {p};
      }
      forall p | p in seeds && p <= key && (forall q :: q in seeds && q <= key ==> |q| <= |p|)
        ensures best == seeds[p]
      {
        assert |p| <= bestLen && |chosen| <= |p|;
        assert p == key[..|p|] && chosen == key[..|chosen|];
      }
    }

    /** First sight of `key` puts it at its seed in both maps; later sights change nothing. */
    method Ensure(key: string, now: Time)
      modifies this`per, g
      ensures key in old(per) ==> per == old(per) && g.channels == old(g.channels)
      ensures key !in old(per) ==>
                && key in per && IsSeed(per[key].base, key)
                && per[key] == Start(per[key].base) && per - {key} == old(per) - {key}
                && g.channels == old(g.channels)[key := Relimit(old(g.StateFor(key, now)), per[key].base)]
    {
      if key in per {
        return;
      }
      var base := BaseFor(key);
      per := per[key := Start(base)];
      g.SetLimit(key, base, now);
    }

    /** `hit` up to its unlock; the governor is told `cur` afterwards. */
    method Hit(key: string, now: Time) returns (cur: Limit)
      requires key in per
      modifies this`per
      ensures per == old(per)[key := Tightened(old(per)[key], now)] && cur == per[key].cur
      ensures var p, q := old(per)[key], per[key];
              && q.base == p.base && q.cur.window == p.cur.window && q.lastStep == now
              && (if p.cur.burst > 1 then p.cur.burst - 1 <= 2 * q.cur.burst <= p.cur.burst else q.cur.burst == p.cur.burst)
    {
      var st := per[key];
      if st.cur.burst > 1 {
        st := st.(cur := st.cur.(burst := st.cur.burst / 2));
      }
      st := st.(lastStep := now);
      per := per[key := st];
      cur := st.cur;
    }

    /** `maybeRecover` up to its unlock; `raised` says whether the governor is told `cur`. */
    method MaybeRecover(key: string, now: Time) returns (raised: bool, cur: Limit)
      requires key in per
      modifies this`per
      ensures raised == MayRecover(old(per)[key], quiet, now)
      ensures per == if raised then old(per)[key := Recovered(old(per)[key], now)] else old(per)
      ensures cur == per[key].cur
      ensures var p, q := old(per)[key], per[key];
              && (raised <==> p.cur.burst < p.base.burst && now - p.lastStep >= quiet)
              && (raised ==> q.base == p.base && q.cur.window == p.cur.window && q.lastStep == now
                             && q.cur.burst == if 2 * p.cur.burst > p.base.burst then p.base.burst else 2 * p.cur.burst)
    {
      var st := per[key];
      if st.cur.burst >= st.base.burst || now - st.lastStep < quiet {
        return false, st.cur;
      }
      st := st.(cur := st.cur.(burst := st.cur.burst * 2));
      if st.cur.burst > st.base.burst {
        st := st.(cur := st.cur.(burst := st.base.burst));
      }
      st := st.(lastStep := now);
      per := per[key := st];
      return true, st.cur;
    }
  }

  // ---- one key under concurrency ----

  /** What a worker's current send has still to do, after `send()` returned `outcome`. */
  datatype Phase =
    | ToRelimit(cur: Limit, outcome: Outcome)
    | ToPenalize(outcome: Outcome)
    | ToDeliver(outcome: Outcome)

  /** A tighten or recovery step, with the burst before and after it. */
  datatype Move =
    | Tighten(at: Time, before: int, after: int)
    | Raise(at: Time, quiet: real, before: int, after: int)

  /**
    One key's governor channel, its adaptive position, and each worker's place in
    the wrapped send.  It starts as the first `ensure` leaves it: until then no
    submission exists, and `ensure` holds the adaptive lock across both maps.
   */
  datatype World = World(
    gov: System, pos: Position, quiet: real, phases: map<nat, Phase>, moves: seq<Move>)

  datatype Act =
    | Gov(step: Step)
    | SendReturned(worker: nat, outcome: Outcome, now: Time)
    | TellLimit(worker: nat)
    | TellPenalty(worker: nat, now: Time)
    | Deliver(worker: nat)
    | SetQuiet(quiet: real)

  function Ensured(def: Limit, base: Limit, quiet: real, now: Time): World {
    var s := Initial(def, now);
    World(s.(ch := Relimit(s.ch, base)), Start(base), quiet, map[], [])
  }

  predicate Can(w: World, a: Act) {
    match a
    case Gov(step) => (step.Enqueue? || step.Begin? || step.End? || step.ReadState?) && Enabled(w.gov, step)
    case SendReturned(v, _, _) => v in w.gov.workers && w.gov.workers[v] != [] && v !in w.phases
    case TellLimit(v) => v in w.phases && w.phases[v].ToRelimit?
    case TellPenalty(v, _) => v in w.phases && w.phases[v].ToPenalize? && w.phases[v].outcome.RateLimited?
    case Deliver(v) =>
      v in w.phases && w.phases[v].ToDeliver? && v in w.gov.workers && w.gov.workers[v] != []
    case SetQuiet(_) => true
  }

  /** The adaptive critical section that follows a send. */
  function Observe(w: World, v: nat, o: Outcome, now: Time): World {
    if o.RateLimited? then
      var p := Tightened(w.pos, now);
      w.(pos := p, phases := w.phases[v := ToRelimit(p.cur, o)],
         moves := w.moves + [Tighten(now, w.pos.cur.burst, p.cur.burst)])
    else if o.Sent? && MayRecover(w.pos, w.quiet, now) then
      var p := Recovered(w.pos, now);
      w.(pos := p, phases := w.phases[v := ToRelimit(p.cur, o)],
         moves := w.moves + [Raise(now, w.quiet, w.pos.cur.burst, p.cur.burst)])
    else w.(phases := w.phases[v := ToDeliver(o)])
  }

  function Do(w: World, a: Act): World
    requires Can(w, a)
  {
    match a
    case Gov(step) => w.(gov := Apply(w.gov, step))
    case SendReturned(v, o, now) => Observe(w, v, o, now)
    case TellLimit(v) =>
      var o := w.phases[v].outcome;
      w.(gov := Apply(w.gov, SetLimit(w.phases[v].cur)),
         phases := w.phases[v := if o.RateLimited? then ToPenalize(o) else ToDeliver(o)])
    case TellPenalty(v, now) =>
      var o := w.phases[v].outcome;
      w.(gov := Apply(w.gov, Penalize(o.wait, now)), phases := w.phases[v := ToDeliver(o)])
    case Deliver(v) =>
      w.(gov := Apply(w.gov, RunOne(v, w.phases[v].outcome)), phases := w.phases - {v})
    case SetQuiet(q) => w.(quiet := q)
  }

  ghost predicate CanAll(w: World, acts: seq<Act>)
    decreases |acts|
  {
    acts == [] || (Can(w, acts[0]) && CanAll(Do(w, acts[0]), acts[1..]))
  }

  ghost function DoAll(w: World, acts: seq<Act>): World
    requires CanAll(w, acts)
    decreases |acts|
  {
    if acts == [] then w else DoAll(Do(w, acts[0]), acts[1..])
  }

  // ---- what every act keeps ----

  /** Same window as the seed; the burst lies in [1, seed], or is the seed itself if that is below one. */
  ghost predicate Bounded(p: Position) {
    && p.cur.window == p.base.window
    && p.cur.burst <= p.base.burst
    && (p.base.burst >= 1 ==> 1 <= p.cur.burst)
    && (p.base.burst < 1 ==> p.cur == p.base)
  }

  /** Only a worker that owns a nonempty batch is inside a send; so at most one is. */
  ghost predicate OwnsItsSend(w: World) {
    forall v :: v in w.phases ==> v in w.gov.workers && w.gov.workers[v] != []
  }

  /** The governor holds `cur`, except between a worker's two critical sections, where it is about to. */
  ghost predicate Agrees(w: World) {
    && (forall v :: v in w.phases && w.phases[v].ToRelimit? ==> w.phases[v].cur == w.pos.cur)
    && ((forall v :: v in w.phases ==> !w.phases[v].ToRelimit?) ==> w.gov.ch.limit == w.pos.cur)
    && (forall v :: v in w.phases && w.phases[v].ToPenalize? ==> w.phases[v].outcome.RateLimited?)
  }

  /**
    Step `i` starts where the one before it ended; a tighten halves (never below
    one), a raise doubles or reaches the seed, and comes at least the quiet
    period after the step before it.
   */
  ghost predicate MoveOk(moves: seq<Move>, i: nat, seed: int)
    requires i < |moves|
  {
    && moves[i].before == (if i == 0 then seed else moves[i - 1].after)
    && match moves[i]
       case Tighten(_, before, after) =>
         if before > 1 then 2 * after <= before <= 2 * after + 1 else after == before
       case Raise(at, quiet, before, after) =>
         && i > 0 && at >= moves[i - 1].at + quiet
         && before < after <= 2 * before && (after == seed || after == 2 * before)
  }

  /** The steps lead from the seed to the current position. */
  ghost predicate Gradual(moves: seq<Move>, p: Position) {
    && (forall i :: 0 <= i < |moves| ==> MoveOk(moves, i, p.base.burst))
    && (if moves == [] then p.cur == p.base
        else p.lastStep == moves[|moves| - 1].at && p.cur.burst == moves[|moves| - 1].after)
  }

  ghost predicate Inv(w: World) {
    && Sound(w.gov) && Paced(w.gov, CapOf(w.pos.base))
    && Bounded(w.pos) && OwnsItsSend(w) && Agrees(w) && Gradual(w.moves, w.pos)
  }

  lemma SmallerBurstIsWithin(base: Limit, burst: int)
    requires burst <= base.burst
    ensures Within(base.(burst := burst), CapOf(base))
  {
    if base.window > 0.0 && burst > 0 {
      DivideMonotone(burst as real, base.burst as real, base.window);
    }
  }

  lemma DivideMonotone(x: real, y: real, d: real)
    requires x <= y && d > 0.0
    ensures x / d <= y / d
  {
    assert (x / d) * d == x && (y / d) * d == y;
    Cancel(y / d, x / d, d);
  }

  lemma TightenKeepsGradual(p: Position, moves: seq<Move>, now: Time)
    requires Bounded(p) && Gradual(moves, p)
    ensures var q := Tightened(p, now);
            Bounded(q) && Gradual(moves + [Tighten(now, p.cur.burst, q.cur.burst)], q)
  {
    var q := Tightened(p, now);
    var after := moves + [Tighten(now, p.cur.burst, q.cur.burst)];
    forall i | 0 <= i < |moves| ensures MoveOk(after, i, p.base.burst) {
      assert MoveOk(moves, i, p.base.burst);
    }
    assert MoveOk(after, |moves|, p.base.burst);
  }

  lemma RaiseKeepsGradual(p: Position, moves: seq<Move>, quiet: real, now: Time)
    requires Bounded(p) && Gradual(moves, p) && MayRecover(p, quiet, now)
    ensures var q := Recovered(p, now);
            Bounded(q) && Gradual(moves + [Raise(now, quiet, p.cur.burst, q.cur.burst)], q)
  {
    var q := Recovered(p, now);
    var after := moves + [Raise(now, quiet, p.cur.burst, q.cur.burst)];
    forall i | 0 <= i < |moves| ensures MoveOk(after, i, p.base.burst) {
      assert MoveOk(moves, i, p.base.burst);
    }
    assert MoveOk(after, |moves|, p.base.burst);
  }

  /** The adaptive section keeps everything: the worker running it is the only one in a send. */
  lemma ObserveKeepsInv(w: World, v: nat, o: Outcome, now: Time)
    requires Inv(w) && Can(w, SendReturned(v, o, now))
    ensures Inv(Observe(w, v, o, now))
  {
    var t := Observe(w, v, o, now);
    InFlightIs(w.gov, v);
    assert w.phases == map[] by {
      assert forall u :: u in w.phases ==> u == v;
      assert w.phases.Keys == {};
    }
    assert t.phases == map[v := t.phases[v]];
    assert OwnsItsSend(t) && Agrees(t);
    if o.RateLimited? {
      TightenKeepsGradual(w.pos, w.moves, now);
    } else if o.Sent? && MayRecover(w.pos, w.quiet, now) {
      RaiseKeepsGradual(w.pos, w.moves, w.quiet, now);
    }
  }

  lemma TellLimitKeepsInv(w: World, v: nat)
    requires Inv(w) && Can(w, TellLimit(v))
    ensures Inv(Do(w, TellLimit(v)))
  {
    var t := Do(w, TellLimit(v));
    InFlightIs(w.gov, v);
    assert forall u :: u in t.phases ==> u == v;
    SmallerBurstIsWithin(w.pos.base, w.pos.cur.burst);
    StepKeepsPaced(w.gov, CapOf(w.pos.base), SetLimit(w.pos.cur));
    StepKeepsSound(w.gov, SetLimit(w.pos.cur));
    assert t.phases[v].ToRelimit? == false;
  }

  lemma GovernorStepKeepsInv(w: World, step: Step, phases: map<nat, Phase>)
    requires Inv(w) && Enabled(w.gov, step) && !step.SetLimit?
    requires phases.Keys <= w.phases.Keys
    requires forall v :: v in phases ==> phases[v] == w.phases[v] || phases[v].ToDeliver?
    requires forall v :: v in w.phases && w.phases[v].ToRelimit? ==> v in phases && phases[v] == w.phases[v]
    requires step.RunOne? ==> step.worker !in phases
    ensures Inv(w.(gov := Apply(w.gov, step), phases := phases))
  {
    var t := w.(gov := Apply(w.gov, step), phases := phases);
    StepKeepsSound(w.gov, step);
    StepKeepsPaced(w.gov, CapOf(w.pos.base), step);
    assert t.gov.ch.limit == w.gov.ch.limit;
    forall v | v in t.phases
      ensures v in t.gov.workers && t.gov.workers[v] != []
    {
      assert v in w.gov.workers && w.gov.workers[v] != [];
    }
  }

  lemma ActKeepsInv(w: World, a: Act)
    requires Inv(w) && Can(w, a)
    ensures Inv(Do(w, a))
    ensures Do(w, a).pos.base == w.pos.base
  {
    match a
    case Gov(step) => GovernorStepKeepsInv(w, step, w.phases);
    case SendReturned(v, o, now) => ObserveKeepsInv(w, v, o, now);
    case TellLimit(v) => TellLimitKeepsInv(w, v);
    case TellPenalty(v, now) =>
      var o := w.phases[v].outcome;
      GovernorStepKeepsInv(w, Penalize(o.wait, now), w.phases[v := ToDeliver(o)]);
    case Deliver(v) =>
      GovernorStepKeepsInv(w, RunOne(v, w.phases[v].outcome), w.phases - {v});
    case SetQuiet(_) =>
  }

  lemma {:induction false} RunKeepsInv(w: World, acts: seq<Act>)
    requires Inv(w) && CanAll(w, acts)
    ensures Inv(DoAll(w, acts)) && DoAll(w, acts).pos.base == w.pos.base
    decreases |acts|
  {
    if acts != [] {
      ActKeepsInv(w, acts[0]);
      RunKeepsInv(Do(w, acts[0]), acts[1..]);
    }
  }

  lemma EnsuredIsInv(def: Limit, base: Limit, quiet: real, now: Time)
    ensures Inv(Ensured(def, base, quiet, now))
  {
  }

  /**
    Agreement and bounds over whole runs of one key: whenever no send is in
    flight, the governor's limit is the adaptive `cur`; `cur` stays between one
    and the seed; raises are spaced by the quiet period.
   */
  lemma AdaptiveAgreement(def: Limit, base: Limit, quiet: real, now: Time, acts: seq<Act>)
    requires CanAll(Ensured(def, base, quiet, now), acts)
    ensures var w := DoAll(Ensured(def, base, quiet, now), acts);
            && (!w.gov.ch.sending ==> w.gov.ch.limit == w.pos.cur)
            && w.pos.base == base && Bounded(w.pos) && Gradual(w.moves, w.pos)
  {
    EnsuredIsInv(def, base, quiet, now);
    RunKeepsInv(Ensured(def, base, quiet, now), acts);
    var w := DoAll(Ensured(def, base, quiet, now), acts);
    if !w.gov.ch.sending {
      assert forall v :: v in w.phases ==> v in w.gov.workers;
    }
  }

  /** The seed's rate bound survives every tighten and every recovery. */
  lemma SeedRateBound(
    def: Limit, base: Limit, quiet: real, now: Time, acts: seq<Act>, since: Time, until: Time)
    requires CanAll(Ensured(def, base, quiet, now), acts) && since <= until
    ensures var w := DoAll(Ensured(def, base, quiet, now), acts);
            var count := |DequeuesWithin(w.gov.dequeues, since, until)| as real;
            count == 0.0 || count <= Quota(base, until - since)
  {
    EnsuredIsInv(def, base, quiet, now);
    RunKeepsInv(Ensured(def, base, quiet, now), acts);
    WindowBound(DoAll(Ensured(def, base, quiet, now), acts).gov.dequeues, CapOf(base), since, until);
    QuotaIsAllowance(base, since, until);
  }

  // ---- how long a penalty lasts ----

  ghost predicate Leads(w: World, acts: seq<Act>, t: World) {
    CanAll(w, acts) && DoAll(w, acts) == t
  }

  lemma {:induction false} Append(w: World, first: seq<Act>, mid: World, second: seq<Act>)
    requires Leads(w, first, mid) && CanAll(mid, second)
    ensures Leads(w, first + second, DoAll(mid, second))
    decreases |first|
  {
    if first == [] {
      assert first + second == second;
    } else {
      assert (first + second)[0] == first[0] && (first + second)[1..] == first[1..] + second;
      Append(Do(w, first[0]), first[1..], mid, second);
    }
  }

  // A run in which a penalty of 1000 s ends after 500 s, in four legs.

  const SEED := Limit(2, 10.0)
  const LEG1 := [Gov(Enqueue), Gov(Enqueue), Gov(Enqueue)]
  const LEG2 := [Gov(Begin(0, 100.0))]
  const LEG3 := [SendReturned(0, RateLimited(1000.0), 100.0), TellLimit(0), TellPenalty(0, 100.0), Deliver(0)]
  const LEG4 := [SendReturned(0, Sent, 160.0), TellLimit(0), Deliver(0), Gov(End(0))]
  const LEG5 := [Gov(Begin(0, 600.0))]

  function AfterQueueing(): World {
    World(System(Channel(SEED, 2.0, 100.0, [0, 1, 2], false), map[], 3, [], []),
          Start(SEED), 60.0, map[], [])
  }

  function AfterBegin(): World {
    World(System(Channel(SEED, 0.0, 100.0, [2], true), map[0 := [0, 1]], 3, [], [100.0, 100.0]),
          Start(SEED), 60.0, map[], [])
  }

  function AfterPenalty(): World {
    World(System(Channel(Limit(1, 10.0), -99.0, 100.0, [2], true), map[0 := [1]], 3,
                 [Delivery(0, RateLimited(1000.0))], [100.0, 100.0]),
          Position(SEED, Limit(1, 10.0), 100.0), 60.0, map[], [Tighten(100.0, 2, 1)])
  }

  function AfterRecovery(): World {
    World(System(Channel(SEED, -99.0, 100.0, [2], false), map[], 3,
                 [Delivery(0, RateLimited(1000.0)), Delivery(1, Sent)], [100.0, 100.0]),
          Position(SEED, SEED, 160.0), 60.0, map[], [Tighten(100.0, 2, 1), Raise(160.0, 60.0, 1, 2)])
  }

  lemma QueueingLeg()
    ensures Leads(Ensured(SEED, SEED, 60.0, 100.0), LEG1, AfterQueueing())
  {
  }

  lemma BeginLeg()
    ensures Leads(AfterQueueing(), LEG2, AfterBegin())
  {
    assert Ready(AfterQueueing().gov.ch, 100.0) == [0, 1];
    assert seq(2, _ => 100.0) == [100.0, 100.0];
  }

  lemma PenaltyLeg()
    ensures Leads(AfterBegin(), LEG3, AfterPenalty())
  {
  }

  lemma RecoveryLeg()
    ensures Leads(AfterPenalty(), LEG4, AfterRecovery())
  {
  }

  lemma LastLeg()
    ensures CanAll(AfterRecovery(), LEG5)
    ensures var end := DoAll(AfterRecovery(), LEG5).gov;
            end.delivered == AfterRecovery().gov.delivered && end.dequeues == [100.0, 100.0, 600.0]
  {
    assert Ready(AfterRecovery().gov.ch, 600.0) == [2];
  }

  /**
    The wait a platform asked for is not kept across a recovery.  A batch of two
    is answered first by a rate limit asking for 1000 s, then by a success 60 s
    later, which doubles the burst; the next send leaves the queue after 500 s.
    (When that can happen is settled by `Penalties.PenaltyIsCutShortIff`.)
   */
  lemma RecoveryCutsAPenaltyShort() returns (acts: seq<Act>)
    ensures TellPenalty(0, 100.0) in acts && CanAll(Ensured(SEED, SEED, 60.0, 100.0), acts)
    ensures var end := DoAll(Ensured(SEED, SEED, 60.0, 100.0), acts).gov;
            && end.delivered == [Delivery(0, RateLimited(1000.0)), Delivery(1, Sent)]
            && end.dequeues == [100.0, 100.0, 600.0]
  {
    var w := Ensured(SEED, SEED, 60.0, 100.0);
    QueueingLeg();
    BeginLeg();
    PenaltyLeg();
    RecoveryLeg();
    LastLeg();
    Append(w, LEG1, AfterQueueing(), LEG2);
    Append(w, LEG1 + LEG2, AfterBegin(), LEG3);
    Append(w, LEG1 + LEG2 + LEG3, AfterPenalty(), LEG4);
    Append(w, LEG1 + LEG2 + LEG3 + LEG4, AfterRecovery(), LEG5);
    acts := LEG1 + LEG2 + LEG3 + LEG4 + LEG5;
    assert acts[6] == LEG3[2];
  }
}
