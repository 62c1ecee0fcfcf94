/**
  Deletion lookup (internal/engine/idmap.go and the id half of
  internal/engine/engine.go): a bounded map from platform message ids to ULIDs,
  evicting first in, first out, over a fixed ring of keys.
 */
module IdMap {
  import opened Ring

  /** The map, the ring of its keys, and the slot the next new key takes. */
  datatype Table = Table(m: map<string, string>, ring: seq<string>, next: nat) {
    ghost predicate Shaped() {
      |ring| > 0 && next < |ring|
    }
  }

  function Empty(capacity: int): Table {
    Table(map[], seq(if capacity < 1 then 1 else capacity, _ => ""), 0)
  }

  function Put(t: Table, key: string, ulid: string): Table
    requires t.Shaped()
  {
    if key in t.m then t.(m := t.m[key := ulid])
    else
      var evicted := t.ring[t.next];
      var kept := if evicted != "" then t.m - {evicted} else t.m;
      Table(kept[key := ulid], t.ring[t.next := key], Succ(t.next, |t.ring|))
  }

  /** A missing key reads as the zero value. */
  function Get(t: Table, key: string): string {
    if key in t.m then t.m[key] else ""
  }

  class IDMap {
    const capacity: nat
    var m: map<string, string>
    const ring: array<string>
    var next: nat

    ghost function Abs(): Table
      reads this, ring
    {
      Table(m, ring[..], next)
    }

    ghost predicate Valid()
      reads this, ring
    {
      capacity == ring.Length && Abs().Shaped()
    }

    constructor (capacity: int)
      ensures Valid() && fresh(ring) && Abs() == Empty(capacity)
    {
      var n := if capacity < 1 then 1 else capacity;
      this.capacity := n;
      m := map[];
      ring := new string[n](_ => "");
      next := 0;
    }

    method PutKey(key: string, ulid: string)
      requires Valid()
      modifies this, ring
      ensures Valid() && Abs() == Put(old(Abs()), key, ulid)
    {
      if key in m {
        m := m[key := ulid];
        return;
      }
      var evicted := ring[next];
      if evicted != "" {
        m := m - {evicted};
      }
      ring[next] := key;
      m := m[key := ulid];
      SuccIsModulo(next, capacity);
      next := (next + 1) % capacity;
    }

    method GetKey(key: string) returns (ulid: string)
      ensures ulid == Get(Abs(), key)
    {
      ulid := if key in m then m[key] else "";
    }
  }

  // ---- what the table holds, from the history of puts alone ----

  datatype Record = Record(key: string, ulid: string)

  /** The slot-consuming insertions: a put consumes a slot iff its key is not among the last `cap` of them. */
  ghost function Inserts(cap: nat, h: seq<Record>): seq<string> {
    if h == [] then []
    else
      var before := Inserts(cap, h[..|h| - 1]);
      var key := h[|h| - 1].key;
      if key in Newest(before, cap) then before else before + [key]
  }

  /** The ULID of the latest put for `key`. */
  ghost function Latest(h: seq<Record>, key: string): string {
    if h == [] then ""
    else if h[|h| - 1].key == key then h[|h| - 1].ulid
    else Latest(h[..|h| - 1], key)
  }

  ghost function PutAll(t: Table, h: seq<Record>): (r: Table)
    requires t.Shaped()
    ensures r.Shaped() && |r.ring| == |t.ring|
  {
    if h == [] then t
    else Put(PutAll(t, h[..|h| - 1]), h[|h| - 1].key, h[|h| - 1].ulid)
  }

  ghost predicate Keyed(h: seq<Record>) {
    forall i :: 0 <= i < |h| ==> h[i].key != ""
  }

  ghost predicate Distinct(s: seq<string>) {
    forall i, j :: 0 <= i < j < |s| ==> s[i] != s[j]
  }

  /** The map's keys are the live keys, each with its latest ULID. */
  ghost predicate Answers(m: map<string, string>, live: seq<string>, h: seq<Record>) {
    && Distinct(live)
    && (forall key :: key in m <==> key in live)
    && (forall key :: key in m ==> m[key] == Latest(h, key))
  }

  ghost predicate Tracks(t: Table, h: seq<Record>)
    requires t.Shaped()
  {
    var cap := |t.ring|;
    var ins := Inserts(cap, h);
    && Holds(t.ring, t.next, ins, "")
    && (forall k :: 0 <= k < |ins| ==> ins[k] != "")
    && Answers(t.m, Newest(ins, cap), h)
  }

  /** A new key pushes the oldest one out of the newest `size`. */
  lemma NewestTakes(ins: seq<string>, size: nat, key: string)
    requires size > 0
    ensures var live := Newest(ins, size);
            Newest(ins + [key], size) == (if |ins| < size then live else live[1..]) + [key]
  {
  }

  lemma LatestExtends(h: seq<Record>, r: Record, key: string)
    ensures Latest(h + [r], key) == if r.key == key then r.ulid else Latest(h, key)
  {
    assert (h + [r])[..|h|] == h;
  }

  lemma InsertsExtend(cap: nat, h: seq<Record>, r: Record)
    ensures var before := Inserts(cap, h);
            Inserts(cap, h + [r]) == if r.key in Newest(before, cap) then before else before + [r.key]
  {
    assert (h + [r])[..|h|] == h;
  }

  /** Evicting the oldest key and adding a new one. */
  lemma EvictAndAdd(m: map<string, string>, live: seq<string>, h: seq<Record>, full: bool, r: Record)
    requires Answers(m, live, h) && r.key !in live && (full ==> live != [])
    ensures var rest := if full then live[1..] else live;
            var kept := if full then m - {live[0]} else m;
            Answers(kept[r.key := r.ulid], rest + [r.key], h + [r])
  {
    var kept := if full then m - {live[0]} else m;
    if full {
      assert live == [live[0]] + live[1..];
    }
    forall k | k in kept[r.key := r.ulid] ensures kept[r.key := r.ulid][k] == Latest(h + [r], k) {
      LatestExtends(h, r, k);
    }
  }

  lemma PutPlaces(t: Table, ins: seq<string>, key: string, ulid: string)
    requires t.Shaped() && Holds(t.ring, t.next, ins, "") && key !in t.m
    requires forall k :: 0 <= k < |ins| ==> ins[k] != ""
    ensures var u := Put(t, key, ulid); Holds(u.ring, u.next, ins + [key], "")
    ensures var live := Newest(ins, |t.ring|);
            Put(t, key, ulid).m == (if |ins| >= |t.ring| then t.m - {live[0]} else t.m)[key := ulid]
  {
    TakesNext(t.ring, t.next, ins, "", key);
  }

  lemma NewKeyAnswers(t: Table, h: seq<Record>, ins: seq<string>, key: string, ulid: string)
    requires t.Shaped() && Holds(t.ring, t.next, ins, "") && key !in t.m
    requires forall k :: 0 <= k < |ins| ==> ins[k] != ""
    requires Answers(t.m, Newest(ins, |t.ring|), h)
    ensures Answers(Put(t, key, ulid).m, Newest(ins + [key], |t.ring|), h + [Record(key, ulid)])
  {
    PutPlaces(t, ins, key, ulid);
    EvictAndAdd(t.m, Newest(ins, |t.ring|), h, |ins| >= |t.ring|, Record(key, ulid));
    NewestTakes(ins, |t.ring|, key);
  }

  lemma Assemble(t: Table, h: seq<Record>, ins: seq<string>)
    requires t.Shaped() && ins == Inserts(|t.ring|, h) && Holds(t.ring, t.next, ins, "")
    requires forall k :: 0 <= k < |ins| ==> ins[k] != ""
    requires Answers(t.m, Newest(ins, |t.ring|), h)
    ensures Tracks(t, h)
  {
  }

  lemma NewKeyPlaced(t: Table, h: seq<Record>, ins: seq<string>, key: string, ulid: string, u: Table)
    requires t.Shaped() && Holds(t.ring, t.next, ins, "") && key != "" && key !in t.m && u == Put(t, key, ulid)
    requires forall k :: 0 <= k < |ins| ==> ins[k] != ""
    requires Answers(t.m, Newest(ins, |t.ring|), h)
    ensures u.Shaped() && |u.ring| == |t.ring| && Holds(u.ring, u.next, ins + [key], "")
    ensures Answers(u.m, Newest(ins + [key], |u.ring|), h + [Record(key, ulid)])
    ensures forall k :: 0 <= k < |ins + [key]| ==> (ins + [key])[k] != ""
  {
    PutPlaces(t, ins, key, ulid);
    NewKeyAnswers(t, h, ins, key, ulid);
  }

  lemma NewKeyIsTracked(t: Table, h: seq<Record>, key: string, ulid: string)
    requires t.Shaped() && Tracks(t, h) && key != "" && key !in t.m
    ensures Tracks(Put(t, key, ulid), h + [Record(key, ulid)])
  {
    var ins := Inserts(|t.ring|, h);
    InsertsExtend(|t.ring|, h, Record(key, ulid));
    NewKeyPlaced(t, h, ins, key, ulid, Put(t, key, ulid));
    Assemble(Put(t, key, ulid), h + [Record(key, ulid)], ins + [key]);
  }

  lemma OldKeyIsTracked(t: Table, h: seq<Record>, key: string, ulid: string)
    requires t.Shaped() && Tracks(t, h) && key in t.m
    ensures Tracks(Put(t, key, ulid), h + [Record(key, ulid)])
  {
    var u, h' := Put(t, key, ulid), h + [Record(key, ulid)];
    InsertsExtend(|t.ring|, h, Record(key, ulid));
    forall k | k in u.m ensures u.m[k] == Latest(h', k) {
      LatestExtends(h, Record(key, ulid), k);
    }
  }

  lemma {:induction false} RunIsTracked(capacity: int, h: seq<Record>)
    requires Keyed(h)
    ensures Tracks(PutAll(Empty(capacity), h), h)
  {
    if h != [] {
      var init, last := h[..|h| - 1], h[|h| - 1];
      RunIsTracked(capacity, init);
      assert h == init + [last];
      var t := PutAll(Empty(capacity), init);
      if last.key in t.m {
        OldKeyIsTracked(t, init, last.key, last.ulid);
      } else {
        NewKeyIsTracked(t, init, last.key, last.ulid);
      }
    }
  }

  /**
    Over any run of puts with nonempty keys: `get` returns the latest ULID put for
    a key among the last `cap` slot-consuming insertions and "" for every other
    key; the ring's nonempty entries are distinct and are the map's keys.
   */
  lemma GetFindsTheLatest(capacity: int, h: seq<Record>, key: string)
    requires Keyed(h)
    ensures var t := PutAll(Empty(capacity), h);
            var live := Newest(Inserts(|t.ring|, h), |t.ring|);
            && Get(t, key) == (if key in live then Latest(h, key) else "")
            && |t.ring| == (if capacity < 1 then 1 else capacity)
            && (key in t.m <==> key != "" && key in t.ring)
            && (forall i, j :: 0 <= i < j < |t.ring| && t.ring[i] != "" ==> t.ring[i] != t.ring[j])
  {
    RunIsTracked(capacity, h);
    var t := PutAll(Empty(capacity), h);
    RingIsLive(t.ring, t.next, Inserts(|t.ring|, h));
  }

  lemma RingIsLive(ring: seq<string>, next: nat, ins: seq<string>)
    requires Holds(ring, next, ins, "") && Distinct(Newest(ins, |ring|))
    requires forall k :: 0 <= k < |ins| ==> ins[k] != ""
    ensures forall key :: key != "" && key in ring <==> key in Newest(ins, |ring|)
    ensures forall i, j :: 0 <= i < j < |ring| && ring[i] != "" ==> ring[i] != ring[j]
  {
    SameEntries(ring, next, ins, "");
    WindowIs(ins, |ring|, "");
    var w := Window(ins, |ring|, "");
    forall i, j | 0 <= i < j < |ring| && ring[i] != "" ensures ring[i] != ring[j] {
      var a := SlotInWindow(ring, next, ins, "", i);
      var b := SlotInWindow(ring, next, ins, "", j);
      assert w[a] == ring[i] && w[b] == ring[j] && a != b;
    }
  }
}
