/**
  The stream hub (internal/api/hub.go, and the subscribe handling of
  internal/api/stream.go): events are stamped, recorded in a replay ring and
  broadcast to matching clients; a reconnecting client is replayed what it missed.
 */
module Hub {
  import opened Ring
  import opened Sorting

  const CLIENT_BUFFER := 256
  const REPLAY_BUFFER := 1024

  /** An encoded event; sequence numbers start at 1, so the zero entry is a blank slot. */
  datatype Entry = Entry(seqno: nat, key: string, all: bool, body: string)

  const BLANK := Entry(0, "", false, "")

  /** An empty subscription selects every channel. */
  predicate Matches(sub: set<string>, key: string) {
    sub == {} || key in sub
  }

  predicate Wanted(e: Entry, sub: set<string>) {
    e.all || Matches(sub, e.key)
  }

  // ---- a client's bounded queue ----

  function Push(q: seq<Entry>, e: Entry): seq<Entry> {
    if |q| < CLIENT_BUFFER then q + [e] else q[1..] + [e]
  }

  function PushAll(q: seq<Entry>, es: seq<Entry>): seq<Entry> {
    if es == [] then q else Push(PushAll(q, es[..|es| - 1]), es[|es| - 1])
  }

  /** How many leave a full queue: what the pump takes, and one dropped unless the pump emptied it first. */
  function Gone(before: nat, after: nat, size: nat): (n: nat)
    ensures n <= size
  {
    if before >= size then size else if before + 1 + after >= size then size else before + 1 + after
  }

  /**
    `pushBytes` with the write pump removing `before` and `after` events between
    its attempts: the new event always gets in, and only older ones leave.
   */
  method PushBytes(q: seq<Entry>, e: Entry, before: nat, after: nat) returns (r: seq<Entry>)
    requires |q| <= CLIENT_BUFFER
    ensures |r| <= CLIENT_BUFFER
    ensures |q| < CLIENT_BUFFER ==> r == q + [e]
    ensures |q| == CLIENT_BUFFER ==> r == q[Gone(before, after, |q|)..] + [e]
    ensures before == 0 && after == 0 ==> r == Push(q, e)
  {
    r := q;
    if |r| < CLIENT_BUFFER {
      r := r + [e];
      assert q[0..] == q;
    } else {
      ghost var n := 0;
      r, n := if before <= |r| then r[before..] else [], if before <= |q| then before else |q|;
      if r != [] {
        r, n := r[1..], n + 1;
      }
      assert r == q[n..];
      var drop := if after <= |r| then after else |r|;
      r, n := r[drop..], n + drop;
      assert r == q[n..];
      if |r| < CLIENT_BUFFER {
        r := r + [e];
      }
    }
  }

  lemma {:induction false} PushAllKeepsNewest(q: seq<Entry>, es: seq<Entry>)
    requires |q| <= CLIENT_BUFFER
    ensures PushAll(q, es) == Newest(q + es, CLIENT_BUFFER)
  {
    if es == [] {
      assert q + es == q;
    } else {
      var init, last := es[..|es| - 1], es[|es| - 1];
      PushAllKeepsNewest(q, init);
      assert q + es == (q + init) + [last];
    }
  }

  // ---- the replay list ----

  function Missed(es: seq<Entry>, sub: set<string>, since: nat): seq<Entry> {
    if es == [] then []
    else Missed(es[..|es| - 1], sub, since)
         + if es[|es| - 1].seqno > since && Wanted(es[|es| - 1], sub) then [es[|es| - 1]] else []
  }

  ghost predicate Ascending(es: seq<Entry>) {
    forall i, j :: 0 <= i < j < |es| ==> es[i].seqno < es[j].seqno
  }

  ghost predicate Sorted(es: seq<Entry>) {
    forall i, j :: 0 <= i < j < |es| ==> es[i].seqno <= es[j].seqno
  }

  predicate NumberedFirst(a: Entry, b: Entry) {
    a.seqno <= b.seqno
  }

  lemma HeadsAgree(a: seq<Entry>, b: seq<Entry>)
    requires Sorted(a) && Ascending(b) && multiset(a) == multiset(b) && a != [] && b != []
    ensures a[0] == b[0]
  {
    assert a[0] in multiset(a) && b[0] in multiset(b);
    assert a[0] in b && b[0] in a;
    var i :| 0 <= i < |b| && b[i] == a[0];
    var j :| 0 <= j < |a| && a[j] == b[0];
    assert i > 0 ==> b[0].seqno < b[i].seqno;
    assert j > 0 ==> a[0].seqno <= a[j].seqno;
  }

  lemma TailBag(s: seq<Entry>)
    requires s != []
    ensures multiset(s[1..]) == multiset(s) - multiset{s[0]}
  {
    assert s == [s[0]] + s[1..];
  }

  /** A sorted arrangement of entries with distinct sequence numbers is the ascending one. */
  lemma {:induction false} SortedIsAscending(a: seq<Entry>, b: seq<Entry>)
    requires Sorted(a) && Ascending(b) && multiset(a) == multiset(b)
    ensures a == b
    decreases |a|
  {
    assert |a| == |multiset(a)| && |b| == |multiset(b)|;
    if a != [] {
      HeadsAgree(a, b);
      TailBag(a);
      TailBag(b);
      SortedIsAscending(a[1..], b[1..]);
      assert a == [a[0]] + a[1..] && b == [b[0]] + b[1..];
    }
  }

  lemma {:induction false} MissedConcat(a: seq<Entry>, b: seq<Entry>, sub: set<string>, since: nat)
    ensures Missed(a + b, sub, since) == Missed(a, sub, since) + Missed(b, sub, since)
  {
    if b == [] {
      assert a + b == a;
    } else {
      assert (a + b)[..|a + b| - 1] == a + b[..|b| - 1];
      MissedConcat(a, b[..|b| - 1], sub, since);
    }
  }

  lemma {:induction false} MissedMembers(es: seq<Entry>, sub: set<string>, since: nat, e: Entry)
    ensures e in Missed(es, sub, since) <==> e in es && e.seqno > since && Wanted(e, sub)
  {
    if es != [] {
      MissedMembers(es[..|es| - 1], sub, since, e);
      assert es == es[..|es| - 1] + [es[|es| - 1]];
    }
  }

  lemma {:induction false} MissedAscends(es: seq<Entry>, sub: set<string>, since: nat)
    requires Ascending(es)
    ensures Ascending(Missed(es, sub, since))
  {
    if es != [] {
      var init, last := es[..|es| - 1], es[|es| - 1];
      MissedAscends(init, sub, since);
      forall i | 0 <= i < |Missed(init, sub, since)| ensures Missed(init, sub, since)[i].seqno < last.seqno {
        MissedMembers(init, sub, since, Missed(init, sub, since)[i]);
      }
    }
  }

  lemma {:induction false} BlanksAreNotMissed(n: nat, sub: set<string>, since: nat)
    ensures Missed(seq(n, _ => BLANK), sub, since) == []
  {
    if n > 0 {
      assert seq(n, _ => BLANK)[..n - 1] == seq(n - 1, _ => BLANK);
      BlanksAreNotMissed(n - 1, sub, since);
    }
  }

  /** What `replayTo` pushes: the ring's entries past the cursor that the client wants, sorted. */
  function ReplayList(ring: seq<Entry>, sub: set<string>, since: nat): seq<Entry> {
    Sort(Missed(ring, sub, since), NumberedFirst)
  }

  /** Read from the oldest slot round, the ring misses exactly what the newest recorded events miss. */
  lemma MissedRotation(ring: seq<Entry>, next: nat, recorded: seq<Entry>, sub: set<string>, since: nat)
    requires Holds(ring, next, recorded, BLANK)
    ensures Missed(Newest(recorded, |ring|), sub, since)
            == Missed(ring[next..], sub, since) + Missed(ring[..next], sub, since)
  {
    MissedConcat(ring[next..], ring[..next], sub, since);
    WindowMisses(recorded, |ring|, sub, since);
  }

  /** The blanks in front of a short log are never missed. */
  lemma WindowMisses(recorded: seq<Entry>, size: nat, sub: set<string>, since: nat)
    ensures Missed(Window(recorded, size, BLANK), sub, since) == Missed(Newest(recorded, size), sub, since)
  {
    WindowIs(recorded, size, BLANK);
    if |recorded| < size {
      BlanksMissNothing(size - |recorded|, Newest(recorded, size), sub, since);
    } else {
      assert Window(recorded, size, BLANK) == Newest(recorded, size);
    }
  }

  lemma BlanksMissNothing(n: nat, es: seq<Entry>, sub: set<string>, since: nat)
    ensures Missed(seq(n, _ => BLANK) + es, sub, since) == Missed(es, sub, since)
  {
    MissedConcat(seq(n, _ => BLANK), es, sub, since);
    BlanksAreNotMissed(n, sub, since);
  }

  lemma NewestAscends(recorded: seq<Entry>, n: nat)
    requires Ascending(recorded)
    ensures Ascending(Newest(recorded, n))
  {
  }

  /** Sorting the ring's entries yields the newest recorded ones in recording order. */
  lemma ReplayListIs(ring: seq<Entry>, next: nat, recorded: seq<Entry>, sub: set<string>, since: nat)
    requires Holds(ring, next, recorded, BLANK) && Ascending(recorded)
    ensures ReplayList(ring, sub, since) == Missed(Newest(recorded, |ring|), sub, since)
    ensures Ascending(ReplayList(ring, sub, since))
  {
    var left, right := Missed(ring[..next], sub, since), Missed(ring[next..], sub, since);
    assert Missed(ring, sub, since) == left + right by {
      assert ring == ring[..next] + ring[next..];
      MissedConcat(ring[..next], ring[next..], sub, since);
    }
    MissedRotation(ring, next, recorded, sub, since);
    NewestAscends(recorded, |ring|);
    MissedAscends(Newest(recorded, |ring|), sub, since);
    SortSorts(left + right, NumberedFirst);
    SortedIsAscending(Sort(left + right, NumberedFirst), right + left);
  }

  /** The events past the cursor that the subscription selects, an empty one selecting all, in order. */
  ghost predicate IsReplay(pending: seq<Entry>, recorded: seq<Entry>, sub: set<string>, since: nat) {
    && Ascending(pending)
    && forall e :: e in pending <==> e in recorded && e.seqno > since && (e.all || sub == {} || e.key in sub)
  }

  // ---- the hub object ----

  /** A connected client: its subscription and its queue of encoded events. */
  datatype Client = Client(sub: set<string>, queue: seq<Entry>)

  function Broadcast(clients: map<nat, Client>, e: Entry): map<nat, Client> {
    map c | c in clients ::
      if Wanted(e, clients[c].sub) then clients[c].(queue := Push(clients[c].queue, e)) else clients[c]
  }

  method BroadcastTo(clients: map<nat, Client>, e: Entry) returns (r: map<nat, Client>)
    requires forall c :: c in clients ==> |clients[c].queue| <= CLIENT_BUFFER
    ensures r == Broadcast(clients, e)
    ensures forall c :: c in clients ==>
              var sub, q := clients[c].sub, clients[c].queue;
              r[c] == Client(sub, if e.all || sub == {} || e.key in sub then (if |q| < 256 then q else q[1..]) + [e] else q)
    ensures forall c :: c in r ==> |r[c].queue| <= CLIENT_BUFFER
  {
    r := clients;
    var rest := clients.Keys;
    while rest != {}
      invariant r.Keys == clients.Keys && rest <= clients.Keys
      invariant forall c :: c in r ==> r[c] == if c in rest then clients[c] else Broadcast(clients, e)[c]
      invariant forall c :: c in r ==> |r[c].queue| <= CLIENT_BUFFER
      decreases rest
    {
      var c :| c in rest;
      if e.all || Matches(r[c].sub, e.key) {
        var q := PushBytes(r[c].queue, e, 0, 0);
        r := r[c := r[c].(queue := q)];
      }
      rest := rest - {c};
    }
  }

  method PushEach(q: seq<Entry>, es: seq<Entry>) returns (r: seq<Entry>)
    requires |q| <= CLIENT_BUFFER
    ensures r == PushAll(q, es) && |r| <= CLIENT_BUFFER
  {
    r := q;
    for i := 0 to |es|
      invariant r == PushAll(q, es[..i]) && |r| <= CLIENT_BUFFER
    {
      assert es[..i + 1][..i] == es[..i];
      r := PushBytes(r, es[i], 0, 0);
    }
    assert es[..|es|] == es;
  }

  class StreamHub {
    var seqno: nat
    const replay: array<Entry>
    var rnext: nat
    var clients: map<nat, Client>
    var closed: bool
    ghost var recorded: seq<Entry>

    /** The ring is exactly the last 1024 recorded events. */
    ghost predicate Valid()
      reads this, replay
    {
      && replay.Length == REPLAY_BUFFER && Holds(replay[..], rnext, recorded, BLANK)
      && Ascending(recorded)
      && (forall i :: 0 <= i < |recorded| ==> 0 < recorded[i].seqno <= seqno)
      && (forall c :: c in clients ==> |clients[c].queue| <= CLIENT_BUFFER)
    }

    /** The ring starts out blank; the source allocates it on the first record. */
    constructor ()
      ensures Valid() && fresh(replay) && seqno == 0 && clients == map[] && !closed && recorded == []
    {
      replay := new Entry[REPLAY_BUFFER](_ => BLANK);
      seqno, rnext, clients, closed, recorded := 0, 0, map[], false, [];
      new;
      assert Rotation(replay[..], 0) == seq(REPLAY_BUFFER, _ => BLANK);
    }

    /** The unlocked half of `Consume`. */
    method Stamp() returns (n: nat)
      requires Valid()
      modifies this`seqno
      ensures Valid() && seqno == old(seqno) + 1 && n == seqno
    {
      seqno := seqno + 1;
      n := seqno;
    }

    method Record(e: Entry)
      requires Valid() && 0 < e.seqno <= seqno
      requires forall i :: 0 <= i < |recorded| ==> recorded[i].seqno < e.seqno
      modifies this`rnext, this`recorded, replay
      ensures Valid() && recorded == old(recorded) + [e]
    {
      TakesNext(replay[..], rnext, recorded, BLANK, e);
      SuccIsModulo(rnext, replay.Length);
      replay[rnext] := e;
      rnext := (rnext + 1) % replay.Length;
      recorded := recorded + [e];
    }

    /** The locked half of `Consume`: record, then offer the event to every client. */
    method Publish(e: Entry)
      requires Valid() && 0 < e.seqno <= seqno
      requires forall i :: 0 <= i < |recorded| ==> recorded[i].seqno < e.seqno
      modifies this`rnext, this`recorded, this`clients, replay
      ensures Valid() && recorded == old(recorded) + [e]
      ensures clients == Broadcast(old(clients), e)
      ensures clients.Keys == old(clients).Keys
      ensures forall c :: c in clients ==>
                var sub, q := old(clients)[c].sub, old(clients)[c].queue;
                clients[c] == Client(sub, if e.all || sub == {} || e.key in sub then (if |q| < 256 then q else q[1..]) + [e] else q)
    {
      Record(e);
      clients := BroadcastTo(clients, e);
    }

    /** Collects, sorts and pushes; the events pushed are the missed ones in recording order. */
    method ReplayTo(c: nat, since: nat)
      requires Valid() && c in clients
      modifies this`clients
      ensures Valid()
      ensures var missed := Missed(Newest(recorded, REPLAY_BUFFER), old(clients)[c].sub, since);
              clients == old(clients)[c := old(clients)[c].(queue := PushAll(old(clients)[c].queue, missed))]
      ensures exists pending :: IsReplay(pending, Newest(recorded, REPLAY_BUFFER), old(clients)[c].sub, since)
                && clients == old(clients)[c := old(clients)[c].(queue := Newest(old(clients)[c].queue + pending, 256))]
    {
      var pending := Collect(clients[c].sub, since);
      PushAllKeepsNewest(clients[c].queue, pending);
      var q := PushEach(clients[c].queue, pending);
      clients := clients[c := clients[c].(queue := q)];
    }

    method Collect(sub: set<string>, since: nat) returns (pending: seq<Entry>)
      requires Valid()
      ensures pending == Missed(Newest(recorded, REPLAY_BUFFER), sub, since)
      ensures IsReplay(pending, Newest(recorded, REPLAY_BUFFER), sub, since)
    {
      pending := [];
      for i := 0 to replay.Length
        invariant pending == Missed(replay[..i], sub, since)
      {
        assert replay[..i + 1][..i] == replay[..i];
        if replay[i].seqno > since && (replay[i].all || Matches(sub, replay[i].key)) {
          pending := pending + [replay[i]];
        }
      }
      assert replay[..replay.Length] == replay[..];
      ReplayListIs(replay[..], rnext, recorded, sub, since);
      forall e ensures e in Missed(Newest(recorded, REPLAY_BUFFER), sub, since)
                       <==> e in Newest(recorded, REPLAY_BUFFER) && e.seqno > since && Wanted(e, sub) {
        MissedMembers(Newest(recorded, REPLAY_BUFFER), sub, since, e);
      }
      pending := Sort(pending, NumberedFirst);
    }

    method Register(c: nat) returns (ok: bool)
      requires Valid() && c !in clients
      modifies this`clients
      ensures Valid() && ok == !closed
      ensures clients == if ok then old(clients)[c := Client({}, [])] else old(clients)
    {
      if closed {
        return false;
      }
      clients := clients[c := Client({}, [])];
      return true;
    }

    method Unregister(c: nat)
      requires Valid()
      modifies this`clients
      ensures Valid() && clients == old(clients) - {c}
    {
      if c in clients {
        clients := clients - {c};
      }
    }
  }

  // ---- stamping, publishing, subscribing, replaying and writing, interleaved ----

  /** A client with the history of everything ever put in its queue. */
  datatype Peer = Peer(sub: set<string>, queue: seq<Entry>, enqueued: seq<Entry>) {
    function Take(es: seq<Entry>): Peer {
      Peer(sub, PushAll(queue, es), enqueued + es)
    }
  }

  /** `stamped` is the event `Consume` has numbered and encoded but not yet published. */
  datatype World = World(
    seqno: nat, stamped: seq<Entry>,
    ring: seq<Entry>, rnext: nat, recorded: seq<Entry>,
    peers: map<nat, Peer>)

  datatype Act =
    | Stamp(key: string, all: bool, body: string, encodes: bool)
    | Publish
    | Register(c: nat)
    | Unregister(c: nat)
    | SetSubscription(c: nat, sub: set<string>)
    | Replay(c: nat, since: nat)
    | Write(c: nat)

  function Start(): World {
    World(0, [], seq(REPLAY_BUFFER, _ => BLANK), 0, [], map[])
  }

  predicate Can(w: World, a: Act) {
    match a
    case Stamp(_, _, _, _) => w.stamped == []
    case Publish => w.stamped != [] && w.rnext < |w.ring|
    case Register(c) => c !in w.peers
    case SetSubscription(c, _) => c in w.peers
    case Replay(c, _) => c in w.peers
    case Write(c) => c in w.peers && w.peers[c].queue != []
    case Unregister(_) => true
  }

  function Do(w: World, a: Act): World
    requires Can(w, a)
  {
    match a
    case Stamp(key, all, body, encodes) =>
      w.(seqno := w.seqno + 1, stamped := if encodes then [Entry(w.seqno + 1, key, all, body)] else [])
    case Publish =>
      var e := w.stamped[0];
      w.(stamped := [], ring := w.ring[w.rnext := e], rnext := Succ(w.rnext, |w.ring|),
         recorded := w.recorded + [e],
         peers := map c | c in w.peers :: if Wanted(e, w.peers[c].sub) then w.peers[c].Take([e]) else w.peers[c])
    case Register(c) => w.(peers := w.peers[c := Peer({}, [], [])])
    case Unregister(c) => w.(peers := w.peers - {c})
    case SetSubscription(c, sub) => w.(peers := w.peers[c := w.peers[c].(sub := sub)])
    case Replay(c, since) =>
      w.(peers := w.peers[c := w.peers[c].Take(ReplayList(w.ring, w.peers[c].sub, since))])
    case Write(c) => w.(peers := w.peers[c := w.peers[c].(queue := w.peers[c].queue[1..])])
  }

  ghost predicate CanAll(w: World, acts: seq<Act>)
    decreases |acts|
  {
    acts == [] || (Can(w, acts[0]) && CanAll(Do(w, acts[0]), acts[1..]))
  }

  ghost function DoAll(w: World, acts: seq<Act>): World
    requires CanAll(w, acts)
    decreases |acts|
  {
    if acts == [] then w else DoAll(Do(w, acts[0]), acts[1..])
  }

  ghost predicate Inv(w: World) {
    && |w.ring| == REPLAY_BUFFER && Holds(w.ring, w.rnext, w.recorded, BLANK)
    && Ascending(w.recorded) && |w.stamped| <= 1
    && (forall i :: 0 <= i < |w.recorded| ==> 0 < w.recorded[i].seqno <= w.seqno)
    && (forall e :: e in w.stamped ==> e.seqno == w.seqno > 0)
    && (forall e, i :: e in w.stamped && 0 <= i < |w.recorded| ==> w.recorded[i].seqno < e.seqno)
  }

  lemma ActKeepsInv(w: World, a: Act)
    requires Inv(w) && Can(w, a)
    ensures Inv(Do(w, a))
    ensures w.recorded <= Do(w, a).recorded
  {
    if a.Publish? {
      TakesNext(w.ring, w.rnext, w.recorded, BLANK, w.stamped[0]);
    }
  }

  lemma {:induction false} RunKeepsInv(w: World, acts: seq<Act>)
    requires Inv(w) && CanAll(w, acts)
    ensures Inv(DoAll(w, acts)) && w.recorded <= DoAll(w, acts).recorded
    decreases |acts|
  {
    if acts != [] {
      ActKeepsInv(w, acts[0]);
      RunKeepsInv(Do(w, acts[0]), acts[1..]);
    }
  }

  /** In every reachable state the ring is exactly the last 1024 recorded events. */
  lemma RingIsTheNewest(acts: seq<Act>)
    requires CanAll(Start(), acts)
    ensures Inv(DoAll(Start(), acts))
  {
    assert Rotation(Start().ring, 0) == Start().ring;
    RunKeepsInv(Start(), acts);
  }

  // ---- no gap between replay and live ----

  /** Client `c`, subscribed to `sub`, has been given every wanted event past `since` from index `from` on. */
  ghost predicate Given(w: World, c: nat, sub: set<string>, since: nat, from: int) {
    && c in w.peers && w.peers[c].sub == sub
    && forall i :: 0 <= i < |w.recorded| && i >= from && w.recorded[i].seqno > since && Wanted(w.recorded[i], sub)
                   ==> w.recorded[i] in w.peers[c].enqueued
  }

  /** The act leaves `c` registered with the subscription it has. */
  predicate Leaves(a: Act, c: nat) {
    !(a.SetSubscription? && a.c == c) && !(a.Unregister? && a.c == c)
  }

  lemma ActKeepsGiven(w: World, a: Act, c: nat, sub: set<string>, since: nat, from: int)
    requires Can(w, a) && Leaves(a, c) && Given(w, c, sub, since, from)
    ensures Given(Do(w, a), c, sub, since, from)
  {
    var t := Do(w, a);
    assert c in t.peers && forall e :: e in w.peers[c].enqueued ==> e in t.peers[c].enqueued;
    if a.Publish? {
      var e := w.stamped[0];
      assert Wanted(e, sub) ==> t.peers[c].enqueued == w.peers[c].enqueued + [e];
    }
  }

  lemma {:induction false} RunKeepsGiven(w: World, acts: seq<Act>, c: nat, sub: set<string>, since: nat, from: int)
    requires CanAll(w, acts) && Given(w, c, sub, since, from)
    requires forall i :: 0 <= i < |acts| ==> Leaves(acts[i], c)
    ensures Given(DoAll(w, acts), c, sub, since, from)
    decreases |acts|
  {
    if acts != [] {
      ActKeepsGiven(w, acts[0], c, sub, since, from);
      RunKeepsGiven(Do(w, acts[0]), acts[1..], c, sub, since, from);
    }
  }

  /** Where the replay ring begins. */
  function RingStart(w: World): int {
    |w.recorded| - REPLAY_BUFFER
  }

  lemma InNewest(recorded: seq<Entry>, n: nat, i: nat)
    requires i < |recorded| && i >= |recorded| - n
    ensures recorded[i] in Newest(recorded, n)
  {
    if |recorded| > n {
      assert Newest(recorded, n)[i - (|recorded| - n)] == recorded[i];
    }
  }

  /** Whatever was already given stays given, and the replay adds what the ring holds. */
  lemma ReplayGives(w: World, c: nat, since: nat, from: int, i: nat)
    requires Inv(w) && c in w.peers && Given(w, c, w.peers[c].sub, since, from)
    requires i < |w.recorded| && (i >= from || i >= RingStart(w))
    requires w.recorded[i].seqno > since && Wanted(w.recorded[i], w.peers[c].sub)
    ensures w.recorded[i] in w.peers[c].enqueued + ReplayList(w.ring, w.peers[c].sub, since)
  {
    if i < from {
      ReplayListIs(w.ring, w.rnext, w.recorded, w.peers[c].sub, since);
      InNewest(w.recorded, REPLAY_BUFFER, i);
      MissedMembers(Newest(w.recorded, REPLAY_BUFFER), w.peers[c].sub, since, w.recorded[i]);
    }
  }

  lemma ReplayWidens(w: World, c: nat, since: nat, from: int, to: int)
    requires Inv(w) && c in w.peers && Given(w, c, w.peers[c].sub, since, from)
    requires to == if from < RingStart(w) then from else RingStart(w)
    ensures Given(Do(w, Replay(c, since)), c, w.peers[c].sub, since, to)
  {
    forall i | 0 <= i < |w.recorded| && i >= to && w.recorded[i].seqno > since
               && Wanted(w.recorded[i], w.peers[c].sub)
      ensures w.recorded[i] in Do(w, Replay(c, since)).peers[c].enqueued
    {
      ReplayGives(w, c, since, from, i);
    }
  }

  /**
    A client sets its subscription and then, any number of other steps later, is
    replayed past `since`.  In every later state in which it is still registered
    with that subscription, every wanted event past `since` that was in the ring
    at the replay, or was recorded after the subscription was set, has been put
    in its queue at least once.
   */
  lemma ResumeLeavesNoGap(w: World, c: nat, sub: set<string>, since: nat, before: seq<Act>, after: seq<Act>, i: nat)
    requires Inv(w) && c in w.peers && CanAll(w, [SetSubscription(c, sub)] + before)
    requires CanAll(DoAll(w, [SetSubscription(c, sub)] + before), [Replay(c, since)] + after)
    requires forall k :: 0 <= k < |before| ==> Leaves(before[k], c)
    requires forall k :: 0 <= k < |after| ==> Leaves(after[k], c)
    ensures var m := DoAll(w, [SetSubscription(c, sub)] + before);
            var t := DoAll(m, [Replay(c, since)] + after);
            i < |t.recorded| && (i >= |w.recorded| || i >= RingStart(m))
            && t.recorded[i].seqno > since && (t.recorded[i].all || sub == {} || t.recorded[i].key in sub)
            ==> c in t.peers && t.recorded[i] in t.peers[c].enqueued
  {
    var w1 := Do(w, SetSubscription(c, sub));
    assert ([SetSubscription(c, sub)] + before)[1..] == before;
    ActKeepsInv(w, SetSubscription(c, sub));
    assert Given(w1, c, sub, since, |w.recorded|);
    RunKeepsInv(w1, before);
    RunKeepsGiven(w1, before, c, sub, since, |w.recorded|);
    var m := DoAll(w1, before);
    var from := if |w.recorded| < RingStart(m) then |w.recorded| else RingStart(m);
    ReplayWidens(m, c, since, |w.recorded|, from);
    assert ([Replay(c, since)] + after)[1..] == after;
    RunKeepsGiven(Do(m, Replay(c, since)), after, c, sub, since, from);
  }

  /** Publishing gives the event to exactly the clients whose subscription selects it. */
  lemma PublishGivesIff(w: World, c: nat)
    requires Can(w, Publish) && c in w.peers
    ensures var e, sub, before := w.stamped[0], w.peers[c].sub, w.peers[c].enqueued;
            && c in Do(w, Publish).peers && Do(w, Publish).recorded == w.recorded + [e]
            && Do(w, Publish).peers[c].enqueued == if e.all || sub == {} || e.key in sub then before + [e] else before
  {
  }

  /** A client that registers and never subscribes is given every event recorded from then on. */
  lemma NewClientGetsEverything(w: World, c: nat, acts: seq<Act>, i: nat)
    requires Inv(w) && CanAll(w, [Register(c)] + acts) && forall k :: 0 <= k < |acts| ==> Leaves(acts[k], c)
    ensures var t := DoAll(w, [Register(c)] + acts);
            |w.recorded| <= i < |t.recorded| ==> c in t.peers && t.recorded[i] in t.peers[c].enqueued
  {
    var w1 := Do(w, Register(c));
    assert ([Register(c)] + acts)[1..] == acts;
    ActKeepsInv(w, Register(c));
    assert Given(w1, c, {}, 0, |w.recorded|);
    RunKeepsInv(w1, acts);
    RunKeepsGiven(w1, acts, c, {}, 0, |w.recorded|);
  }

  /** A replay pushes the missed events of the ring, each once, in ascending sequence order. */
  lemma ReplayIsInOrder(w: World, c: nat, since: nat)
    requires Inv(w) && c in w.peers
    ensures var missed := Missed(Newest(w.recorded, REPLAY_BUFFER), w.peers[c].sub, since);
            && Do(w, Replay(c, since)).peers[c].enqueued == w.peers[c].enqueued + missed
            && Ascending(missed)
  {
    var newest := Newest(w.recorded, REPLAY_BUFFER);
    ReplayPushes(w, c, since, Missed(newest, w.peers[c].sub, since));
    NewestAscends(w.recorded, REPLAY_BUFFER);
    MissedAscends(newest, w.peers[c].sub, since);
  }

  /**
    The queue holds 256 events and a replay may push 1024: with no write in
    between, everything replayed is still queued afterwards if and only if at
    most 256 events were missed.
   */
  lemma ReplayFitsIff(w: World, c: nat, since: nat)
    requires Inv(w) && c in w.peers && |w.peers[c].queue| <= CLIENT_BUFFER
    ensures var missed := Missed(Newest(w.recorded, REPLAY_BUFFER), w.peers[c].sub, since);
            var queue := Do(w, Replay(c, since)).peers[c].queue;
            && queue == Newest(w.peers[c].queue + missed, CLIENT_BUFFER)
            && (EndsWith(queue, missed) <==> |missed| <= CLIENT_BUFFER)
  {
    var missed := Missed(Newest(w.recorded, REPLAY_BUFFER), w.peers[c].sub, since);
    ReplayPushes(w, c, since, missed);
    PushAllKeepsNewest(w.peers[c].queue, missed);
    FitsIff(w.peers[c].queue, missed, CLIENT_BUFFER);
  }

  lemma ReplayPushes(w: World, c: nat, since: nat, missed: seq<Entry>)
    requires Inv(w) && c in w.peers && missed == Missed(Newest(w.recorded, REPLAY_BUFFER), w.peers[c].sub, since)
    ensures Do(w, Replay(c, since)).peers[c] == w.peers[c].Take(missed)
  {
    RingReplays(w, w.peers[c].sub, since, missed);
  }

  lemma RingReplays(w: World, sub: set<string>, since: nat, missed: seq<Entry>)
    requires Inv(w) && missed == Missed(Newest(w.recorded, REPLAY_BUFFER), sub, since)
    ensures ReplayList(w.ring, sub, since) == missed
  {
    ReplayListIs(w.ring, w.rnext, w.recorded, sub, since);
  }

  ghost predicate EndsWith(s: seq<Entry>, tail: seq<Entry>) {
    |tail| <= |s| && s[|s| - |tail|..] == tail
  }

  lemma FitsIff(q: seq<Entry>, missed: seq<Entry>, n: nat)
    requires |q| <= n
    ensures EndsWith(Newest(q + missed, n), missed) <==> |missed| <= n
  {
    var r := Newest(q + missed, n);
    if |missed| <= n {
      assert r[|r| - |missed|..] == missed;
    }
  }

  // A run in which a client misses 257 events.

  /** `n` events for everyone, numbered from `k + 1`. */
  function Events(k: nat, n: nat): seq<Entry> {
    seq(n, i requires 0 <= i < n => Entry(k + 1 + i, "", true, ""))
  }

  lemma {:induction false} EventsMissed(n: nat)
    ensures |Missed(Events(0, n), {}, 1)| == if n == 0 then 0 else n - 1
  {
    if n > 0 {
      EventsMissed(n - 1);
      assert Events(0, n)[..n - 1] == Events(0, n - 1);
    }
  }

  lemma {:induction false} DoAllConcat(w: World, first: seq<Act>, second: seq<Act>)
    requires CanAll(w, first) && CanAll(DoAll(w, first), second)
    ensures CanAll(w, first + second) && DoAll(w, first + second) == DoAll(DoAll(w, first), second)
    decreases |first|
  {
    if first == [] {
      assert first + second == second;
    } else {
      assert (first + second)[0] == first[0] && (first + second)[1..] == first[1..] + second;
      DoAllConcat(Do(w, first[0]), first[1..], second);
    }
  }

  /** Nobody is connected, and events 1 to n have been published. */
  ghost predicate Published(w: World, n: nat) {
    Inv(w) && w.stamped == [] && w.peers == map[] && w.seqno == n && w.recorded == Events(0, n)
  }

  lemma PublishOne(w: World, n: nat) returns (acts: seq<Act>)
    requires Published(w, n)
    ensures CanAll(w, acts) && Published(DoAll(w, acts), n + 1)
  {
    var stamp := Stamp("", true, "", true);
    var w1 := Do(w, stamp);
    ActKeepsInv(w, stamp);
    var w2 := Do(w1, Publish);
    ActKeepsInv(w1, Publish);
    acts := [stamp, Publish];
    assert acts[1..] == [Publish] && acts[1..][1..] == [];
    assert DoAll(w2, []) == w2;
    assert DoAll(w1, acts[1..]) == w2;
    assert Events(0, n + 1) == Events(0, n) + [Entry(n + 1, "", true, "")];
  }

  lemma {:induction false} PublishEvents(n: nat) returns (acts: seq<Act>)
    ensures CanAll(Start(), acts) && Published(DoAll(Start(), acts), n)
  {
    if n == 0 {
      acts := [];
      RingIsTheNewest([]);
    } else {
      var first := PublishEvents(n - 1);
      var last := PublishOne(DoAll(Start(), first), n - 1);
      DoAllConcat(Start(), first, last);
      acts := first + last;
    }
  }

  lemma JoinsLate(t: World, n: nat) returns (w: World)
    requires Published(t, n) && 258 <= n <= REPLAY_BUFFER
    ensures CanAll(t, [Register(0)]) && w == DoAll(t, [Register(0)]) && Inv(w) && 0 in w.peers && w.peers[0].queue == []
    ensures var missed := Missed(Newest(w.recorded, REPLAY_BUFFER), w.peers[0].sub, 1);
            |missed| == n - 1 && !EndsWith(Do(w, Replay(0, 1)).peers[0].queue, missed)
  {
    w := Do(t, Register(0));
    ActKeepsInv(t, Register(0));
    assert [Register(0)][1..] == [];
    assert DoAll(w, []) == w;
    EventsMissed(n);
    ReplayFitsIff(w, 0, 1);
  }

  /** After 258 events a client joins and resumes from the first: 257 events are replayed, not all of them stay. */
  lemma ReplayOverflows() returns (acts: seq<Act>)
    ensures CanAll(Start(), acts)
    ensures var w := DoAll(Start(), acts);
            && Inv(w) && 0 in w.peers && w.peers[0].queue == []
            && var missed := Missed(Newest(w.recorded, REPLAY_BUFFER), w.peers[0].sub, 1);
               |missed| == 257 && !EndsWith(Do(w, Replay(0, 1)).peers[0].queue, missed)
  {
    var n := 258;
    var flood := PublishEvents(n);
    var w := JoinsLate(DoAll(Start(), flood), n);
    DoAllConcat(Start(), flood, [Register(0)]);
    acts := flood + [Register(0)];
  }
}
