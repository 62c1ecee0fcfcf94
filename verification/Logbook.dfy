/**
  Chat persistence (internal/logbook/logbook.go, the logging flag of
  internal/engine/engine.go, and the store's refusal of ephemeral messages): the
  flag in force when a message is ingested decides for good whether it may be
  written.
 */
module Logbook {

  const FLUSH_AT := 200

  /** A message, named by its place among the ingested ones. */
  datatype Msg = Msg(id: nat, channel: string, ephemeral: bool)

  datatype Event = Message(m: Msg) | Deleted(id: string) | Other

  /** The store's choke point: one ephemeral message refuses the whole batch. */
  predicate StoreAccepts(batch: seq<Msg>) {
    forall i :: 0 <= i < |batch| ==> !batch[i].ephemeral
  }

  // ---- the sink, one call at a time ----

  class Sink {
    var enabled: bool
    var closed: bool
    var buf: seq<Msg>
    var channels: set<string>

    constructor ()
      ensures !enabled && !closed && buf == [] && channels == {}
    {
      enabled, closed, buf, channels := false, false, [], {};
    }

    /** Everything that could be flushed is fit for the store. */
    ghost predicate Valid()
      reads this
    {
      StoreAccepts(buf) && |buf| < FLUSH_AT
      && forall i :: 0 <= i < |buf| ==> buf[i].channel in channels
    }

    method SetEnabled(on: bool)
      requires Valid()
      modifies this`enabled, this`buf
      ensures Valid() && enabled == on && buf == if on then old(buf) else []
    {
      enabled := on;
      if !on {
        buf := [];
      }
    }

    /** Buffers a message; a full buffer is handed over at once, `batch` being what the store is given. */
    method ConsumeMessage(m: Msg) returns (batch: seq<Msg>)
      requires Valid()
      modifies this`buf, this`channels
      ensures Valid() && StoreAccepts(batch)
      ensures batch + buf == old(buf) + if !m.ephemeral then [m] else []
      ensures batch == [] || (buf == [] && |batch| == FLUSH_AT)
    {
      batch := [];
      if m.ephemeral {
        return;
      }
      buf := buf + [m];
      channels := channels + {m.channel};
      if |buf| >= FLUSH_AT {
        batch, buf := buf, [];
      }
    }

    /** `batch` is what the store is given to append, `deleted` the ids it is told to mark deleted. */
    method Consume(ev: Event) returns (batch: seq<Msg>, deleted: seq<string>)
      requires Valid()
      modifies this`buf, this`channels
      ensures Valid() && StoreAccepts(batch)
      ensures batch + buf == old(buf) + if !closed && enabled && ev.Message? && !ev.m.ephemeral then [ev.m] else []
      ensures batch == [] || (buf == [] && |batch| == FLUSH_AT)
      ensures deleted == if !closed && enabled && ev.Deleted? && ev.id != "" then [ev.id] else []
    {
      batch, deleted := [], [];
      if closed || !enabled {
        return;
      }
      match ev
      case Message(m) =>
        batch := ConsumeMessage(m);
      case Deleted(id) =>
        if id != "" {
          deleted := [id];
        }
      case Other =>
    }

    /** The periodic flush. */
    method Flush() returns (batch: seq<Msg>)
      requires Valid()
      modifies this`buf
      ensures Valid() && StoreAccepts(batch) && batch == old(buf) && buf == []
    {
      batch, buf := buf, [];
    }
  }

  // ---- ingest, sink, toggles and flushes, interleaved ----

  /**
    `submitted` is everything ingest ever handed to the pipeline, which may lose,
    delay or reorder it.  `admitted` are the messages a Consume has let past its
    checks but not yet buffered; `clears` counts SetEnabled(false) calls that have
    stored the flag but not yet emptied the buffer; `taken` are batches a flush
    holds; `appended` is what the store was given.  `flags` is the engine's logging
    flag at each ingest.
   */
  datatype World = World(
    logging: bool, enabled: bool, closed: bool,
    flags: seq<bool>, submitted: seq<Msg>,
    admitted: seq<Msg>, clears: nat, buf: seq<Msg>,
    taken: seq<seq<Msg>>, appended: seq<seq<Msg>>)

  datatype Act =
    | SetLogging(on: bool)
    | Ingest(channel: string)
    | Admit(i: nat)
    | Buffer(i: nat)
    | StoreEnabled(on: bool)
    | ClearBuffer
    | Take
    | Append(i: nat)
    | Close

  function Initial(): World {
    World(false, false, false, [], [], [], 0, [], [], [])
  }

  function Without<T>(s: seq<T>, i: nat): (r: seq<T>)
    requires i < |s|
    ensures forall x :: x in r ==> x in s
  {
    s[..i] + s[i + 1..]
  }

  predicate Can(w: World, a: Act) {
    match a
    case Admit(i) => i < |w.submitted|
    case Buffer(i) => i < |w.admitted|
    case ClearBuffer => w.clears > 0
    case Append(i) => i < |w.taken|
    case _ => true
  }

  function Do(w: World, a: Act): World
    requires Can(w, a)
  {
    match a
    case SetLogging(on) => w.(logging := on)
    case Ingest(ch) =>
      w.(flags := w.flags + [w.logging],
         submitted := w.submitted + [Msg(|w.flags|, ch, !w.logging)])
    case Admit(i) =>
      if w.closed || !w.enabled || w.submitted[i].ephemeral then w
      else w.(admitted := w.admitted + [w.submitted[i]])
    case Buffer(i) => w.(buf := w.buf + [w.admitted[i]], admitted := Without(w.admitted, i))
    case StoreEnabled(on) => w.(enabled := on, clears := w.clears + if on then 0 else 1)
    case ClearBuffer => w.(buf := [], clears := w.clears - 1)
    case Take => if w.buf == [] then w else w.(taken := w.taken + [w.buf], buf := [])
    case Append(i) => w.(appended := w.appended + [w.taken[i]], taken := Without(w.taken, i))
    case Close => w.(closed := true)
  }

  ghost predicate CanAll(w: World, acts: seq<Act>)
    decreases |acts|
  {
    acts == [] || (Can(w, acts[0]) && CanAll(Do(w, acts[0]), acts[1..]))
  }

  ghost function DoAll(w: World, acts: seq<Act>): World
    requires CanAll(w, acts)
    decreases |acts|
  {
    if acts == [] then w else DoAll(Do(w, acts[0]), acts[1..])
  }

  // ---- nothing ingested with logging off is ever written ----

  /** The message carries the flag in force when it was ingested. */
  ghost predicate Stamped(flags: seq<bool>, m: Msg) {
    m.id < |flags| && m.ephemeral == !flags[m.id]
  }

  /** Stamped messages whose flag was on. */
  ghost predicate Writable(flags: seq<bool>, ms: seq<Msg>) {
    forall i :: 0 <= i < |ms| ==> Stamped(flags, ms[i]) && flags[ms[i].id]
  }

  ghost predicate AllWritable(flags: seq<bool>, batches: seq<seq<Msg>>) {
    forall i :: 0 <= i < |batches| ==> Writable(flags, batches[i])
  }

  ghost predicate Inv(w: World) {
    && (forall i :: 0 <= i < |w.submitted| ==> Stamped(w.flags, w.submitted[i]))
    && Writable(w.flags, w.admitted) && Writable(w.flags, w.buf)
    && AllWritable(w.flags, w.taken) && AllWritable(w.flags, w.appended)
  }

  lemma IngestKeepsInv(w: World, ch: string)
    requires Inv(w)
    ensures Inv(Do(w, Ingest(ch)))
  {
    var flags := w.flags + [w.logging];
    assert forall m :: Stamped(w.flags, m) ==> Stamped(flags, m) && flags[m.id] == w.flags[m.id];
    forall i | 0 <= i < |w.taken| ensures Writable(flags, w.taken[i]) {
      assert Writable(w.flags, w.taken[i]);
    }
    forall i | 0 <= i < |w.appended| ensures Writable(flags, w.appended[i]) {
      assert Writable(w.flags, w.appended[i]);
    }
  }

  lemma ActKeepsInv(w: World, a: Act)
    requires Inv(w) && Can(w, a)
    ensures Inv(Do(w, a))
  {
    if a.Ingest? {
      IngestKeepsInv(w, a.channel);
    }
  }

  lemma {:induction false} RunKeepsInv(w: World, acts: seq<Act>)
    requires Inv(w) && CanAll(w, acts)
    ensures Inv(DoAll(w, acts))
    decreases |acts|
  {
    if acts != [] {
      ActKeepsInv(w, acts[0]);
      RunKeepsInv(Do(w, acts[0]), acts[1..]);
    }
  }

  /**
    In every interleaving, every message handed to `Append` was ingested while the
    engine's logging flag was on; so the store never refuses a batch of the sink.
   */
  lemma OnlyLoggedMessagesAreWritten(acts: seq<Act>, batch: seq<Msg>)
    requires CanAll(Initial(), acts) && batch in DoAll(Initial(), acts).appended
    ensures StoreAccepts(batch)
    ensures var w := DoAll(Initial(), acts);
            forall i :: 0 <= i < |batch| ==> batch[i].id < |w.flags| && w.flags[batch[i].id]
  {
    RunKeepsInv(Initial(), acts);
    var w := DoAll(Initial(), acts);
    var k :| 0 <= k < |w.appended| && w.appended[k] == batch;
    assert Writable(w.flags, w.appended[k]);
  }

  // ---- switching logging off ----

  /** The sink as `SetEnabled(false)` leaves it when no other toggle is under way. */
  ghost predicate SwitchedOff(w: World) {
    !w.enabled && w.clears == 0 && w.buf == []
  }

  ghost predicate StaysOff(acts: seq<Act>) {
    forall i :: 0 <= i < |acts| ==> acts[i] != StoreEnabled(true)
  }

  /** While off, whatever is buffered, taken or newly appended was already past the check. */
  ghost predicate Drained(w: World) {
    !w.enabled && w.admitted == [] && w.buf == [] && w.taken == []
  }

  lemma {:induction false} DrainedWritesNothing(w: World, acts: seq<Act>)
    requires Drained(w) && CanAll(w, acts) && StaysOff(acts)
    ensures DoAll(w, acts).appended == w.appended
    decreases |acts|
  {
    if acts != [] {
      assert Drained(Do(w, acts[0])) && Do(w, acts[0]).appended == w.appended;
      DrainedWritesNothing(Do(w, acts[0]), acts[1..]);
    }
  }

  /** An act list that writes something although logging stays off. */
  ghost predicate Writes(w: World, acts: seq<Act>) {
    CanAll(w, acts) && StaysOff(acts) && DoAll(w, acts).appended != w.appended
  }

  lemma TakenBatchIsWritten(w: World)
    requires w.taken != []
    ensures Writes(w, [Append(0)])
  {
    var t := Do(w, Append(0));
    assert DoAll(w, [Append(0)]) == t;
    assert |t.appended| == |w.appended| + 1;
  }

  lemma AdmittedMessageIsWritten(w: World)
    requires w.admitted != [] && w.taken == []
    ensures Writes(w, [Buffer(0), Take, Append(0)])
  {
    var acts := [Buffer(0), Take, Append(0)];
    var w1 := Do(w, Buffer(0));
    var w2 := Do(w1, Take);
    assert acts[1..] == [Take, Append(0)] && acts[1..][1..] == [Append(0)];
    assert |w2.taken| == 1;
    var w3 := Do(w2, Append(0));
    assert DoAll(w2, [Append(0)]) == w3;
    assert |w3.appended| == |w.appended| + 1;
  }

  /**
    Switching logging off keeps everything received before from being written,
    until it is switched on again, if and only if at that moment no Consume is
    between its check and the buffer and no flush holds a batch.
   */
  lemma SwitchingOffStopsWritesIff(w: World)
    requires SwitchedOff(w)
    ensures (forall acts :: !Writes(w, acts)) <==> w.admitted == [] && w.taken == []
  {
    if w.admitted == [] && w.taken == [] {
      forall acts ensures !Writes(w, acts) {
        if CanAll(w, acts) && StaysOff(acts) {
          DrainedWritesNothing(w, acts);
        }
      }
    } else if w.taken != [] {
      TakenBatchIsWritten(w);
    } else {
      AdmittedMessageIsWritten(w);
    }
  }

  /** Such a moment is reachable: a message is written after `SetEnabled(false)` has returned. */
  lemma WrittenAfterSwitchOff() returns (before: seq<Act>, after: seq<Act>)
    ensures CanAll(Initial(), before) && SwitchedOff(DoAll(Initial(), before))
    ensures Writes(DoAll(Initial(), before), after)
  {
    before := [SetLogging(true), StoreEnabled(true), Ingest("c"), Admit(0), StoreEnabled(false), ClearBuffer];
    var w1 := Do(Initial(), SetLogging(true));
    var w2 := Do(w1, StoreEnabled(true));
    var w3 := Do(w2, Ingest("c"));
    var w4 := Do(w3, Admit(0));
    var w5 := Do(w4, StoreEnabled(false));
    var w6 := Do(w5, ClearBuffer);
    assert before[1..][1..][1..][1..][1..] == [ClearBuffer];
    assert DoAll(w5, [ClearBuffer]) == w6;
    assert DoAll(w4, [StoreEnabled(false), ClearBuffer]) == w6;
    assert DoAll(w3, [Admit(0), StoreEnabled(false), ClearBuffer]) == w6;
    assert DoAll(w2, [Ingest("c"), Admit(0), StoreEnabled(false), ClearBuffer]) == w6;
    assert DoAll(w1, [StoreEnabled(true), Ingest("c"), Admit(0), StoreEnabled(false), ClearBuffer]) == w6;
    assert DoAll(Initial(), before) == w6;
    AdmittedMessageIsWritten(w6);
    after := [Buffer(0), Take, Append(0)];
  }
}
