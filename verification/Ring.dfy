/**
  Rings of fixed size that hold the newest entries of a log.  Read from the slot
  to be written next, all the way round, a ring is the log's last `size` entries,
  oldest first, with blanks in front while the log is still short.
 */
module Ring {

  function Succ(next: nat, size: nat): (r: nat)
    requires next < size
    ensures r < size
  {
    if next + 1 == size then 0 else next + 1
  }

  lemma SuccIsModulo(next: nat, size: nat)
    requires next < size
    ensures Succ(next, size) == (next + 1) % size
  {
  }

  function Rotation<T>(ring: seq<T>, next: nat): (r: seq<T>)
    requires next <= |ring|
    ensures |r| == |ring|
  {
    ring[next..] + ring[..next]
  }

  /** The last `size` entries of a log preceded by blanks. */
  function Window<T>(log: seq<T>, size: nat, blank: T): (w: seq<T>)
    ensures |w| == size
  {
    (seq(size, _ => blank) + log)[|log|..]
  }

  /** The last `size` entries of a log, or all of a shorter one. */
  function Newest<T>(log: seq<T>, size: nat): seq<T> {
    if |log| <= size then log else log[|log| - size..]
  }

  ghost predicate Holds<T>(ring: seq<T>, next: nat, log: seq<T>, blank: T) {
    next < |ring| && Rotation(ring, next) == Window(log, |ring|, blank)
  }

  lemma WindowIs<T>(log: seq<T>, size: nat, blank: T)
    ensures Window(log, size, blank)
            == (if |log| < size then seq(size - |log|, _ => blank) else []) + Newest(log, size)
  {
  }

  /** Writing the next entry in the next slot overwrites the oldest one and no other. */
  lemma TakesNext<T>(ring: seq<T>, next: nat, log: seq<T>, blank: T, x: T)
    requires Holds(ring, next, log, blank)
    ensures Holds(ring[next := x], Succ(next, |ring|), log + [x], blank)
    ensures ring[next] == if |log| < |ring| then blank else Newest(log, |ring|)[0]
  {
    var size := |ring|;
    var before, after := Rotation(ring, next), Rotation(ring[next := x], Succ(next, size));
    assert after == before[1..] + [x];
    assert Window(log + [x], size, blank) == Window(log, size, blank)[1..] + [x];
    assert ring[next] == before[0] == Window(log, size, blank)[0];
  }

  /** Slot for slot, the ring's entries are the window's, in rotated order. */
  lemma SlotInWindow<T>(ring: seq<T>, next: nat, log: seq<T>, blank: T, i: nat) returns (k: nat)
    requires Holds(ring, next, log, blank) && i < |ring|
    ensures k < |ring| && Window(log, |ring|, blank)[k] == ring[i]
    ensures k == if i >= next then i - next else i + |ring| - next
  {
    k := if i >= next then i - next else i + |ring| - next;
    assert Rotation(ring, next)[k] == ring[i];
  }

  lemma SameEntries<T>(ring: seq<T>, next: nat, log: seq<T>, blank: T)
    requires Holds(ring, next, log, blank)
    ensures forall x :: x in ring <==> x in Window(log, |ring|, blank)
  {
    assert ring == ring[..next] + ring[next..];
  }
}
