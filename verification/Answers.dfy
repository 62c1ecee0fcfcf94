/** Which answers move the adaptive limit: exactly the rate-limited ones tighten it, only successes raise it. */
module Answers {
  import opened RateLimit
  import opened AdaptiveRate

  function Tightens(moves: seq<Move>): nat {
    if moves == [] then 0 else Tightens(moves[..|moves| - 1]) + if moves[|moves| - 1].Tighten? then 1 else 0
  }

  function Raises(moves: seq<Move>): nat {
    if moves == [] then 0 else Raises(moves[..|moves| - 1]) + if moves[|moves| - 1].Raise? then 1 else 0
  }

  function Limited(ds: seq<Delivery>): nat {
    if ds == [] then 0 else Limited(ds[..|ds| - 1]) + if ds[|ds| - 1].outcome.RateLimited? then 1 else 0
  }

  function Succeeded(ds: seq<Delivery>): nat {
    if ds == [] then 0 else Succeeded(ds[..|ds| - 1]) + if ds[|ds| - 1].outcome.Sent? then 1 else 0
  }

  /** An answer not yet delivered is a rate limit. */
  ghost predicate LimitPending(w: World) {
    exists v :: v in w.phases && w.phases[v].outcome.RateLimited?
  }

  ghost predicate SuccessPending(w: World) {
    exists v :: v in w.phases && w.phases[v].outcome.Sent?
  }

  /** Every rate-limit answer tightened once, and no more raises than successes; failures moved nothing. */
  ghost predicate Matched(w: World) {
    && Tightens(w.moves) == Limited(w.gov.delivered) + (if LimitPending(w) then 1 else 0)
    && Raises(w.moves) <= Succeeded(w.gov.delivered) + (if SuccessPending(w) then 1 else 0)
  }

  lemma OnePhase(w: World, v: nat)
    requires Inv(w) && v in w.gov.workers
    ensures w.phases.Keys <= {v}
  {
    InFlightIs(w.gov, v);
  }

  lemma MovesSnoc(moves: seq<Move>, m: Move)
    ensures Tightens(moves + [m]) == Tightens(moves) + (if m.Tighten? then 1 else 0)
    ensures Raises(moves + [m]) == Raises(moves) + (if m.Raise? then 1 else 0)
  {
    assert (moves + [m])[..|moves|] == moves;
  }

  lemma DeliveredSnoc(ds: seq<Delivery>, d: Delivery)
    ensures Limited(ds + [d]) == Limited(ds) + (if d.outcome.RateLimited? then 1 else 0)
    ensures Succeeded(ds + [d]) == Succeeded(ds) + (if d.outcome.Sent? then 1 else 0)
  {
    assert (ds + [d])[..|ds|] == ds;
  }

  lemma AnswerMatches(w: World, v: nat, o: Outcome, now: Time)
    requires Inv(w) && Matched(w) && Can(w, SendReturned(v, o, now))
    ensures Matched(Observe(w, v, o, now))
  {
    var t := Observe(w, v, o, now);
    OnePhase(w, v);
    assert w.phases.Keys == {};
    assert t.phases.Keys == {v} && t.phases[v].outcome == o;
    if |t.moves| > |w.moves| {
      var m := t.moves[|w.moves|];
      assert t.moves == w.moves + [m];
      MovesSnoc(w.moves, m);
    } else {
      assert t.moves == w.moves;
    }
  }

  lemma DeliveryMatches(w: World, v: nat)
    requires Inv(w) && Matched(w) && Can(w, Deliver(v))
    ensures Matched(Do(w, Deliver(v)))
  {
    var t := Do(w, Deliver(v));
    OnePhase(w, v);
    assert t.phases.Keys == {};
    DeliveredSnoc(w.gov.delivered, Delivery(w.gov.workers[v][0], w.phases[v].outcome));
  }

  lemma OtherMatches(w: World, a: Act)
    requires Inv(w) && Matched(w) && Can(w, a) && !a.SendReturned? && !a.Deliver?
    ensures Matched(Do(w, a))
  {
    var t := Do(w, a);
    assert t.moves == w.moves && t.gov.delivered == w.gov.delivered && t.phases.Keys == w.phases.Keys;
    assert forall v :: v in w.phases ==> t.phases[v].outcome == w.phases[v].outcome;
  }

  lemma {:induction false} RunMatches(w: World, acts: seq<Act>)
    requires Inv(w) && Matched(w) && CanAll(w, acts)
    ensures Matched(DoAll(w, acts))
    decreases |acts|
  {
    if acts != [] {
      var a := acts[0];
      ActKeepsInv(w, a);
      if a.SendReturned? {
        AnswerMatches(w, a.worker, a.outcome, a.now);
      } else if a.Deliver? {
        DeliveryMatches(w, a.worker);
      } else {
        OtherMatches(w, a);
      }
      RunMatches(Do(w, a), acts[1..]);
    }
  }

  /**
    In every run of one key: a channel was tightened once for each rate-limit answer, the one not yet
    delivered included, and raised no more often than sends succeeded; a failed send moves nothing.
   */
  lemma AnswersMoveTheLimit(def: Limit, base: Limit, quiet: real, now: Time, acts: seq<Act>)
    requires CanAll(Ensured(def, base, quiet, now), acts)
    ensures Matched(DoAll(Ensured(def, base, quiet, now), acts))
  {
    EnsuredIsInv(def, base, quiet, now);
    RunMatches(Ensured(def, base, quiet, now), acts);
  }
}
