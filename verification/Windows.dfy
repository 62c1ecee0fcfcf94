/**
  Rings of per-second buckets.  Second `s` uses slot f(s), where seconds less than
  `size` apart never share a slot; a slot is reset when a new second reaches it.
  What the live slots add up to is a recount of the event log over the window.
 */
module Windows {

  // ---- weighted counts over a log ----

  function Sum<E>(log: seq<E>, w: E -> nat): nat {
    if log == [] then 0 else Sum(log[..|log| - 1], w) + w(log[|log| - 1])
  }

  lemma {:induction false} SumEqual<E>(log: seq<E>, w: E -> nat, v: E -> nat)
    requires forall h :: h in log ==> w(h) == v(h)
    ensures Sum(log, w) == Sum(log, v)
  {
    if log != [] {
      SumEqual(log[..|log| - 1], w, v);
    }
  }

  lemma {:induction false} SumAdds<E>(log: seq<E>, w: E -> nat, v: E -> nat, u: E -> nat)
    requires forall h :: h in log ==> u(h) == w(h) + v(h)
    ensures Sum(log, u) == Sum(log, w) + Sum(log, v)
  {
    if log != [] {
      SumAdds(log[..|log| - 1], w, v, u);
    }
  }

  lemma {:induction false} SumZero<E>(log: seq<E>, w: E -> nat)
    requires forall h :: h in log ==> w(h) == 0
    ensures Sum(log, w) == 0
  {
    if log != [] {
      SumZero(log[..|log| - 1], w);
    }
  }

  lemma {:induction false} SumAtMost<E>(log: seq<E>, w: E -> nat, v: E -> nat, u: E -> nat)
    requires forall h :: h in log ==> w(h) + v(h) <= u(h)
    ensures Sum(log, w) + Sum(log, v) <= Sum(log, u)
  {
    if log != [] {
      SumAtMost(log[..|log| - 1], w, v, u);
    }
  }

  lemma {:induction false} SumConcat<E>(a: seq<E>, b: seq<E>, w: E -> nat)
    ensures Sum(a + b, w) == Sum(a, w) + Sum(b, w)
  {
    if b == [] {
      assert a + b == a;
    } else {
      assert (a + b)[..|a + b| - 1] == a + b[..|b| - 1];
      SumConcat(a, b[..|b| - 1], w);
    }
  }

  lemma SumSnoc<E>(log: seq<E>, h: E, w: E -> nat)
    ensures Sum(log + [h], w) == Sum(log, w) + w(h)
  {
    assert (log + [h])[..|log|] == log;
  }

  // ---- windows and slots ----

  predicate InWindow(s: nat, now: nat, size: nat) {
    s <= now && now - s < size
  }

  /** Seconds that share a slot are at least a whole ring apart. */
  ghost predicate Spread(f: nat -> nat, size: nat) {
    && (forall s: nat :: f(s) < size)
    && (forall s: nat, t: nat :: s < t && f(s) == f(t) ==> t - s >= size)
  }

  /** Which second a slot holds, if any ever reached it. */
  datatype Slot = Unused | Used(sec: nat)

  /** The slot holds the last second of the log that maps to it. */
  ghost predicate SlotOk<E>(slot: Slot, i: nat, log: seq<E>, sec: E -> nat, f: nat -> nat) {
    match slot
    case Unused => forall h :: h in log ==> f(sec(h)) != i
    case Used(s) =>
      && f(s) == i && (exists h :: h in log && sec(h) == s)
      && (forall h :: h in log && f(sec(h)) == i ==> sec(h) <= s)
  }

  ghost predicate SlotsOk<E>(slots: seq<Slot>, log: seq<E>, sec: E -> nat, f: nat -> nat) {
    forall i :: 0 <= i < |slots| ==> SlotOk(slots[i], i, log, sec, f)
  }

  /** Every event so far happened at or before `now`. */
  ghost predicate UpTo<E>(log: seq<E>, sec: E -> nat, now: nat) {
    forall h :: h in log ==> sec(h) <= now
  }

  // ---- weights restricted to part of the log ----

  /** The weight of the events of second `s`. */
  function AtSec<E>(sec: E -> nat, wt: E -> nat, s: nat): E -> nat {
    h => if sec(h) == s then wt(h) else 0
  }

  /** The weight of the events inside the window. */
  function Inside<E>(sec: E -> nat, wt: E -> nat, now: nat, size: nat): E -> nat {
    h => if InWindow(sec(h), now, size) then wt(h) else 0
  }

  /** The weight of the events inside the window whose slot is `i`. */
  function InsideAt<E>(sec: E -> nat, wt: E -> nat, f: nat -> nat, now: nat, size: nat, i: nat): E -> nat {
    h => if InWindow(sec(h), now, size) && f(sec(h)) == i then wt(h) else 0
  }

  /** The weight of the events inside the window whose slot is below `r`. */
  function InsideBelow<E>(sec: E -> nat, wt: E -> nat, f: nat -> nat, now: nat, size: nat, r: nat): E -> nat {
    h => if InWindow(sec(h), now, size) && f(sec(h)) < r then wt(h) else 0
  }

  /** The weight of the events a slot holds. */
  ghost function Held<E>(slot: Slot, log: seq<E>, sec: E -> nat, wt: E -> nat): nat {
    match slot
    case Unused => 0
    case Used(s) => Sum(log, AtSec(sec, wt, s))
  }

  predicate Live(slot: Slot, now: nat, size: nat) {
    slot.Used? && InWindow(slot.sec, now, size)
  }

  /** What the first `r` slots contribute when slot i holds `vals[i]`. */
  ghost function LiveSum(slots: seq<Slot>, vals: seq<nat>, now: nat, size: nat, r: nat): nat
    requires |vals| == |slots| && r <= |slots|
  {
    if r == 0 then 0
    else LiveSum(slots, vals, now, size, r - 1) + if Live(slots[r - 1], now, size) then vals[r - 1] else 0
  }

  /** The recount: the weight of all events of the log inside the window. */
  ghost function Recount<E>(log: seq<E>, sec: E -> nat, wt: E -> nat, now: nat, size: nat): nat {
    Sum(log, Inside(sec, wt, now, size))
  }

  /** Every slot's counter is the weight of the events it holds. */
  ghost predicate Counts<E>(vals: seq<nat>, slots: seq<Slot>, log: seq<E>, sec: E -> nat, wt: E -> nat) {
    && |vals| == |slots|
    && forall i :: 0 <= i < |slots| ==> vals[i] == Held(slots[i], log, sec, wt)
  }

  /** One slot's live contribution is the weight of the window's events that map to it. */
  lemma SlotContribution<E>(slot: Slot, i: nat, log: seq<E>, sec: E -> nat, wt: E -> nat,
                            f: nat -> nat, now: nat, size: nat)
    requires Spread(f, size) && SlotOk(slot, i, log, sec, f) && UpTo(log, sec, now)
    ensures Sum(log, InsideAt(sec, wt, f, now, size, i))
            == if Live(slot, now, size) then Held(slot, log, sec, wt) else 0
  {
    if Live(slot, now, size) {
      forall h | h in log
        ensures InWindow(sec(h), now, size) && f(sec(h)) == i <==> sec(h) == slot.sec
      {
        assert sec(h) < slot.sec && f(sec(h)) == f(slot.sec) ==> slot.sec - sec(h) >= size;
      }
      SumEqual(log, InsideAt(sec, wt, f, now, size, i), AtSec(sec, wt, slot.sec));
    } else {
      SumZero(log, InsideAt(sec, wt, f, now, size, i));
    }
  }

  lemma {:induction false} LiveSumIs<E>(slots: seq<Slot>, vals: seq<nat>, log: seq<E>, sec: E -> nat, wt: E -> nat,
                                        f: nat -> nat, now: nat, size: nat, r: nat)
    requires Spread(f, size) && SlotsOk(slots, log, sec, f) && UpTo(log, sec, now)
    requires Counts(vals, slots, log, sec, wt) && r <= |slots|
    ensures LiveSum(slots, vals, now, size, r) == Sum(log, InsideBelow(sec, wt, f, now, size, r))
    decreases r
  {
    if r == 0 {
      SumZero(log, InsideBelow(sec, wt, f, now, size, r));
    } else {
      LiveSumIs(slots, vals, log, sec, wt, f, now, size, r - 1);
      SlotContribution(slots[r - 1], r - 1, log, sec, wt, f, now, size);
      SumAdds(log, InsideBelow(sec, wt, f, now, size, r - 1), InsideAt(sec, wt, f, now, size, r - 1),
              InsideBelow(sec, wt, f, now, size, r));
    }
  }

  /** The live slots add up to the recount. */
  lemma LiveSumIsRecount<E>(slots: seq<Slot>, vals: seq<nat>, log: seq<E>, sec: E -> nat, wt: E -> nat,
                            f: nat -> nat, now: nat)
    requires Spread(f, |slots|) && SlotsOk(slots, log, sec, f) && UpTo(log, sec, now)
    requires Counts(vals, slots, log, sec, wt)
    ensures LiveSum(slots, vals, now, |slots|, |slots|) == Recount(log, sec, wt, now, |slots|)
  {
    var size := |slots|;
    LiveSumIs(slots, vals, log, sec, wt, f, now, size, size);
    SumEqual(log, InsideBelow(sec, wt, f, now, size, size), Inside(sec, wt, now, size));
  }

  /** The weight of the events whose slot is below `r`. */
  function Below<E>(sec: E -> nat, wt: E -> nat, f: nat -> nat, r: nat): E -> nat {
    h => if f(sec(h)) < r then wt(h) else 0
  }

  /** The live slots never add up to more than the whole log, even while some slot is ahead of `now`. */
  lemma {:induction false} LiveSumBounded<E>(slots: seq<Slot>, vals: seq<nat>, log: seq<E>, sec: E -> nat, wt: E -> nat,
                                             f: nat -> nat, now: nat, size: nat, r: nat)
    requires SlotsOk(slots, log, sec, f) && Counts(vals, slots, log, sec, wt) && r <= |slots|
    ensures LiveSum(slots, vals, now, size, r) <= Sum(log, Below(sec, wt, f, r))
    decreases r
  {
    if r > 0 {
      LiveSumBounded(slots, vals, log, sec, wt, f, now, size, r - 1);
      var slot := slots[r - 1];
      assert SlotOk(slot, r - 1, log, sec, f);
      if slot.Used? {
        SumAtMost(log, Below(sec, wt, f, r - 1), AtSec(sec, wt, slot.sec), Below(sec, wt, f, r));
      } else {
        SumEqual(log, Below(sec, wt, f, r - 1), Below(sec, wt, f, r));
      }
    }
  }

  /** An event is in a live slot's second exactly when it is in the window. */
  lemma LiveIffInWindow<E>(slots: seq<Slot>, log: seq<E>, sec: E -> nat, f: nat -> nat, now: nat, h: E)
    requires Spread(f, |slots|) && SlotsOk(slots, log, sec, f) && UpTo(log, sec, now) && h in log
    ensures f(sec(h)) < |slots|
    ensures var slot := slots[f(sec(h))];
            InWindow(sec(h), now, |slots|) <==> Live(slot, now, |slots|) && slot.sec == sec(h)
  {
    var slot := slots[f(sec(h))];
    assert SlotOk(slot, f(sec(h)), log, sec, f);
    assert slot.Used? && f(slot.sec) == f(sec(h)) && sec(h) <= slot.sec <= now;
  }

  // ---- recording ----

  /** Recording an event moves its slot to its second and leaves every other slot as it was. */
  lemma RecordSlots<E>(slots: seq<Slot>, log: seq<E>, h: E, sec: E -> nat, f: nat -> nat)
    requires Spread(f, |slots|) && SlotsOk(slots, log, sec, f) && UpTo(log, sec, sec(h))
    ensures f(sec(h)) < |slots|
    ensures SlotsOk(slots[f(sec(h)) := Used(sec(h))], log + [h], sec, f)
    ensures UpTo(log + [h], sec, sec(h))
  {
    var i := f(sec(h));
    var after := slots[i := Used(sec(h))];
    forall j | 0 <= j < |after| ensures SlotOk(after[j], j, log + [h], sec, f) {
      assert SlotOk(slots[j], j, log, sec, f);
      if j == i {
        assert h in log + [h];
      } else if slots[j].Used? {
        var g :| g in log && sec(g) == slots[j].sec;
        assert g in log + [h];
      }
    }
  }

  /** The counter of a recorded second: the slot's own if it is already at this second, else it starts over. */
  function Bump(slot: Slot, val: nat, s: nat, weight: nat): nat {
    (if slot == Used(s) then val else 0) + weight
  }

  /** The reset-or-keep rule keeps every counter equal to the weight its slot holds. */
  lemma RecordCounts<E>(slots: seq<Slot>, vals: seq<nat>, log: seq<E>, h: E, sec: E -> nat, wt: E -> nat, f: nat -> nat)
    requires Spread(f, |slots|) && SlotsOk(slots, log, sec, f) && UpTo(log, sec, sec(h))
    requires Counts(vals, slots, log, sec, wt)
    ensures f(sec(h)) < |slots|
    ensures var i := f(sec(h));
            Counts(vals[i := Bump(slots[i], vals[i], sec(h), wt(h))], slots[i := Used(sec(h))], log + [h], sec, wt)
  {
    var i := f(sec(h));
    RecordHeld(slots[i], i, log, h, sec, wt, f);
    forall j | 0 <= j < |slots| && j != i ensures Held(slots[j], log + [h], sec, wt) == Held(slots[j], log, sec, wt) {
      assert SlotOk(slots[j], j, log, sec, f);
      OtherHeld(slots[j], log, h, sec, wt);
    }
  }

  lemma RecordHeld<E>(slot: Slot, i: nat, log: seq<E>, h: E, sec: E -> nat, wt: E -> nat, f: nat -> nat)
    requires SlotOk(slot, i, log, sec, f) && UpTo(log, sec, sec(h)) && f(sec(h)) == i
    ensures Held(Used(sec(h)), log + [h], sec, wt) == Bump(slot, Held(slot, log, sec, wt), sec(h), wt(h))
  {
    SumSnoc(log, h, AtSec(sec, wt, sec(h)));
    if slot != Used(sec(h)) {
      SumZero(log, AtSec(sec, wt, sec(h)));
    }
  }

  lemma OtherHeld<E>(slot: Slot, log: seq<E>, h: E, sec: E -> nat, wt: E -> nat)
    requires slot.Used? ==> slot.sec != sec(h)
    ensures Held(slot, log + [h], sec, wt) == Held(slot, log, sec, wt)
  {
    if slot.Used? {
      SumSnoc(log, h, AtSec(sec, wt, slot.sec));
    }
  }
}
