/**
  The token ledger: the rate bound from below.  No token is lost but to a full bucket,
  and no drain leaves one unspent while something is queued.
 */
module Ledger {
  import opened RateLimit

  /** The limit stays as it is and nothing is penalized. */
  predicate Calm(step: Step) {
    !step.SetLimit? && !step.Penalize?
  }

  ghost predicate AllCalm(steps: seq<Step>) {
    forall i :: 0 <= i < |steps| ==> Calm(steps[i])
  }

  /** What the full bucket turns away when a step reads the clock. */
  function Spill(s: System, step: Step): real {
    if (step.ReadState? || (step.Begin? && !s.ch.sending)) && step.now > s.ch.lastRefill then
      var over := s.ch.tokens + (step.now - s.ch.lastRefill) * s.ch.limit.RefillPerSec() - s.ch.limit.burst as real;
      if over > 0.0 then over else 0.0
    else 0.0
  }

  ghost function Spilled(s: System, steps: seq<Step>): real
    requires Legal(s, steps)
    decreases |steps|
  {
    if steps == [] then 0.0 else Spill(s, steps[0]) + Spilled(Apply(s, steps[0]), steps[1..])
  }

  /** Everything ever dequeued and what is left in the bucket. */
  function Spent(s: System): real {
    |s.dequeues| as real + s.ch.tokens
  }

  /** What `rate` earns from one clock reading to another; kept as two products for the proofs. */
  function Earned(from: real, to: real, rate: real): real {
    to * rate - from * rate
  }

  /** What a refill at `now` turns away. */
  function Over(c: Channel, now: Time, rate: real): real {
    var over := c.tokens + Earned(c.lastRefill, now, rate) - c.limit.burst as real;
    if now > c.lastRefill && over > 0.0 then over else 0.0
  }

  lemma RefillBalances(c: Channel, now: Time, rate: real)
    requires c.lastRefill > 0.0 && rate == c.limit.RefillPerSec()
    ensures var r := Refill(c, now);
            && r.tokens + Over(c, now, rate) == c.tokens + Earned(c.lastRefill, r.lastRefill, rate)
            && r.lastRefill >= c.lastRefill
  {
    Split(c.lastRefill, now, rate);
  }

  lemma SpillIs(s: System, step: Step, rate: real)
    requires rate == s.ch.limit.RefillPerSec()
    ensures Spill(s, step) == if step.ReadState? || (step.Begin? && !s.ch.sending) then Over(s.ch, step.now, rate) else 0.0
  {
    if step.ReadState? || step.Begin? {
      Split(s.ch.lastRefill, step.now, rate);
    }
  }

  lemma ReadBalances(s: System, now: Time, rate: real)
    requires s.ch.lastRefill > 0.0 && rate == s.ch.limit.RefillPerSec()
    ensures var t := Apply(s, ReadState(now));
            && Spent(t) + Over(s.ch, now, rate) == Spent(s) + Earned(s.ch.lastRefill, t.ch.lastRefill, rate)
            && t.ch.lastRefill >= s.ch.lastRefill
  {
    RefillBalances(s.ch, now, rate);
  }

  /** A drain spends one token for each entry it takes. */
  lemma BeginSpends(s: System, w: nat, now: Time)
    requires w !in s.workers && !s.ch.sending
    ensures Spent(Apply(s, Begin(w, now))) == Spent(Apply(s, ReadState(now)))
    ensures Apply(s, Begin(w, now)).ch.lastRefill == Apply(s, ReadState(now)).ch.lastRefill
  {
  }

  lemma StepBalances(s: System, step: Step, rate: real)
    requires Enabled(s, step) && Calm(step) && s.ch.lastRefill > 0.0 && rate == s.ch.limit.RefillPerSec()
    ensures Balanced(s, Apply(s, step), Spill(s, step), rate)
  {
    SpillIs(s, step, rate);
    if step.ReadState? {
      ReadBalances(s, step.now, rate);
    } else if step.Begin? && !s.ch.sending {
      ReadBalances(s, step.now, rate);
      BeginSpends(s, step.worker, step.now);
    } else {
      OtherSpendsNothing(s, step);
    }
  }

  lemma OtherSpendsNothing(s: System, step: Step)
    requires Enabled(s, step) && Calm(step) && !step.ReadState? && (step.Begin? ==> s.ch.sending)
    ensures var t := Apply(s, step);
            Spent(t) == Spent(s) && t.ch.lastRefill == s.ch.lastRefill && t.ch.limit == s.ch.limit
  {
  }

  /** From `s` to `t` the books balance, with `spill` turned away. */
  ghost predicate Balanced(s: System, t: System, spill: real, rate: real) {
    && Spent(t) + spill == Spent(s) + Earned(s.ch.lastRefill, t.ch.lastRefill, rate)
    && t.ch.lastRefill >= s.ch.lastRefill && t.ch.limit == s.ch.limit
  }

  lemma BalancedChain(s: System, t: System, u: System, x: real, y: real, rate: real)
    requires Balanced(s, t, x, rate) && Balanced(t, u, y, rate)
    ensures Balanced(s, u, x + y, rate)
  {
  }

  /**
    The exact ledger of every run under a fixed limit without penalties, whatever the interleaving:
    what left the queue, plus what is in the bucket, plus what the full bucket turned away, is what
    was there plus what the refill clock earned.
   */
  lemma {:induction false} LedgerBalances(s: System, steps: seq<Step>, rate: real)
    requires Legal(s, steps) && AllCalm(steps) && s.ch.lastRefill > 0.0 && rate == s.ch.limit.RefillPerSec()
    ensures Balanced(s, Exec(s, steps), Spilled(s, steps), rate)
    decreases |steps|
  {
    if steps != [] {
      var t, rest := Apply(s, steps[0]), steps[1..];
      StepBalances(s, steps[0], rate);
      assert AllCalm(rest);
      LedgerBalances(t, rest, rate);
      BalancedChain(s, t, Exec(t, rest), Spill(s, steps[0]), Spilled(t, rest), rate);
    }
  }

  /** A drain that finds no batch in flight stops only at an empty queue or an empty bucket. */
  lemma DrainIsGreedy(s: System, w: nat, now: Time)
    requires w !in s.workers && !s.ch.sending
    ensures var t := Apply(s, Begin(w, now)); t.ch.queue == [] || t.ch.tokens < 1.0
  {
  }

  /** Every submission has left the queue or is in it. */
  ghost predicate Counted(s: System) {
    s.submitted == |s.dequeues| + |s.ch.queue|
  }

  lemma {:induction false} RunCounts(s: System, steps: seq<Step>)
    requires Legal(s, steps) && Counted(s)
    ensures Counted(Exec(s, steps))
    decreases |steps|
  {
    if steps != [] {
      RunCounts(Apply(s, steps[0]), steps[1..]);
    }
  }

  /**
    The rate bound from below: under a fixed limit, a drain after any run leaves something queued
    only when the tokens earned since the start, less what spilled from a full bucket, are spent to
    less than one.
   */
  lemma QueueWaitsOnlyForTokens(limit: Limit, start: Time, steps: seq<Step>, w: nat, now: Time)
    requires start > 0.0 && Legal(Initial(limit, start), steps + [Begin(w, now)]) && AllCalm(steps)
    requires Legal(Initial(limit, start), steps) && !Exec(Initial(limit, start), steps).ch.sending
    requires w !in Exec(Initial(limit, start), steps).workers
    ensures var all := steps + [Begin(w, now)];
            var t := Exec(Initial(limit, start), all);
            var earned := Quota(limit, t.ch.lastRefill - start) - Spilled(Initial(limit, start), all);
            && |t.dequeues| as real == earned - t.ch.tokens
            && (t.ch.queue == [] || |t.dequeues| as real > earned - 1.0)
            && t.submitted == |t.dequeues| + |t.ch.queue|
  {
    var s0, all := Initial(limit, start), steps + [Begin(w, now)];
    assert AllCalm(all);
    LedgerBalances(s0, all, limit.RefillPerSec());
    QuotaIsEarned(limit, start, Exec(s0, all).ch.lastRefill);
    ExecSnoc(s0, steps, Begin(w, now));
    DrainIsGreedy(Exec(s0, steps), w, now);
    RunCounts(s0, all);
  }

  lemma QuotaIsEarned(limit: Limit, start: Time, now: Time)
    ensures Quota(limit, now - start) == limit.burst as real + Earned(start, now, limit.RefillPerSec())
  {
    QuotaIsAllowance(limit, start, now);
  }

  lemma {:induction false} ExecSnoc(s: System, steps: seq<Step>, step: Step)
    requires Legal(s, steps) && Legal(s, steps + [step])
    ensures Enabled(Exec(s, steps), step) && Exec(s, steps + [step]) == Apply(Exec(s, steps), step)
    decreases |steps|
  {
    if steps == [] {
      assert (steps + [step])[1..] == [];
    } else {
      assert (steps + [step])[1..] == steps[1..] + [step];
      ExecSnoc(Apply(s, steps[0]), steps[1..], step);
    }
  }

  predicate ReadsAt(step: Step, now: Time) {
    match step
    case Begin(_, n) => n == now
    case ReadState(n) => n == now
    case _ => true
  }

  lemma {:induction false} NothingSpills(s: System, steps: seq<Step>, now: Time)
    requires Legal(s, steps) && AllCalm(steps) && s.ch.lastRefill == now > 0.0
    requires forall i :: 0 <= i < |steps| ==> ReadsAt(steps[i], now)
    ensures Spilled(s, steps) == 0.0 && Exec(s, steps).ch.lastRefill == now
    decreases |steps|
  {
    if steps != [] {
      NothingSpills(Apply(s, steps[0]), steps[1..], now);
    }
  }

  /**
    A full bucket lets a burst out at once: at one clock reading, however the submissions and drains
    interleave and over however many batches, after a drain min(submitted, burst) sends have left.
   */
  lemma FullBucketSendsAtOnce(limit: Limit, start: Time, steps: seq<Step>, w: nat)
    requires start > 0.0 && limit.burst >= 0 && Legal(Initial(limit, start), steps + [Begin(w, start)]) && AllCalm(steps)
    requires Legal(Initial(limit, start), steps) && !Exec(Initial(limit, start), steps).ch.sending
    requires w !in Exec(Initial(limit, start), steps).workers
    requires forall i :: 0 <= i < |steps| ==> ReadsAt(steps[i], start)
    ensures var t := Exec(Initial(limit, start), steps + [Begin(w, start)]);
            && |t.dequeues| == (if t.submitted <= limit.burst then t.submitted else limit.burst)
            && t.ch.tokens == (limit.burst - |t.dequeues|) as real
  {
    var s0, all := Initial(limit, start), steps + [Begin(w, start)];
    QueueWaitsOnlyForTokens(limit, start, steps, w, start);
    assert forall i :: 0 <= i < |all| ==> ReadsAt(all[i], start);
    assert AllCalm(all);
    NothingSpills(s0, all, start);
    var t := Exec(s0, all);
    QuotaIsEarned(limit, start, start);
    RunStaysSolvent(s0, all);
  }

  /** Without penalties and with a limit of zero or more the bucket is never overdrawn. */
  lemma {:induction false} RunStaysSolvent(s: System, steps: seq<Step>)
    requires Legal(s, steps) && AllCalm(steps) && s.ch.tokens >= 0.0 && s.ch.limit.burst >= 0
    ensures Exec(s, steps).ch.tokens >= 0.0
    decreases |steps|
  {
    if steps != [] {
      StepStaysSolvent(s, steps[0]);
      RunStaysSolvent(Apply(s, steps[0]), steps[1..]);
    }
  }

  lemma StepStaysSolvent(s: System, step: Step)
    requires Enabled(s, step) && Calm(step) && s.ch.tokens >= 0.0 && s.ch.limit.burst >= 0
    ensures Apply(s, step).ch.tokens >= 0.0 && Apply(s, step).ch.limit == s.ch.limit
  {
    if step.ReadState? || step.Begin? {
      Scale(if step.now > s.ch.lastRefill then step.now - s.ch.lastRefill else 0.0,
            s.ch.limit.RefillPerSec(), s.ch.limit.RefillPerSec());
    }
  }
}
