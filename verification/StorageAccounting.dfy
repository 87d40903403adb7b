/**
  The counters against the storages they count, over every run of creations and closings.
 */
module StorageAccounting {
  import opened Bytes
  import opened CacheStats
  import opened BodyStorage

  /** A storage the process has created. */
  datatype Entry = Entry(body: Body, open: bool)

  datatype World = World(stats: Stats, entries: seq<Entry>)

  /** Settings may differ from call to call; `diskWorks` says whether the disk accepts this body. */
  datatype Event =
    | Create(config: Config, data: seq<Byte>, diskWorks: bool)
    | CreateFrom(config: Config, stream: seq<Byte>, contentLength: int, maxBytes: int, diskWorks: bool)
    | CloseStorage(id: nat)

  function Start(): World {
    World(Stats(0, 0, 0, 0, 0, 0), [])
  }

  function Next(w: World, e: Event): World {
    match e
    case Create(config, data, diskWorks) =>
      var body := Body(KindFor(w.stats, config, |data|, diskWorks), data);
      World(Opened(w.stats, body.kind, |data|), w.entries + [Entry(body, true)])
    case CreateFrom(config, stream, contentLength, maxBytes, diskWorks) =>
      var c := CreationFrom(w.stats, config, stream, contentLength, maxBytes, diskWorks);
      if c.Refused? then w else World(StatsCreated(w.stats, c.body), w.entries + [Entry(c.body, true)])
    case CloseStorage(id) =>
      if id >= |w.entries| || !w.entries[id].open then w
      else
        var body := w.entries[id].body;
        World(Released(w.stats, body.kind, |body.data|), w.entries[id := w.entries[id].(open := false)])
  }

  predicate OpenOf(e: Entry, kind: Kind) {
    e.open && e.body.kind == kind
  }

  function OpenCount(entries: seq<Entry>, n: nat, kind: Kind): nat
    requires n <= |entries|
  {
    if n == 0 then 0 else OpenCount(entries, n - 1, kind) + if OpenOf(entries[n - 1], kind) then 1 else 0
  }

  function OpenBytes(entries: seq<Entry>, n: nat, kind: Kind): nat
    requires n <= |entries|
  {
    if n == 0 then 0
    else OpenBytes(entries, n - 1, kind) + if OpenOf(entries[n - 1], kind) then |entries[n - 1].body.data| else 0
  }

  /** The counters equal the number and the size of the open storages of each kind. */
  predicate Exact(w: World) {
    var n := |w.entries|;
    && w.stats.diskFiles == OpenCount(w.entries, n, OnDisk)
    && w.stats.diskBytes == OpenBytes(w.entries, n, OnDisk)
    && w.stats.memoryBuffers == OpenCount(w.entries, n, InMemory)
    && w.stats.memoryBytes == OpenBytes(w.entries, n, InMemory)
  }

  lemma {:induction false} CountsOfPrefix(entries: seq<Entry>, more: seq<Entry>, n: nat, kind: Kind)
    requires n <= |entries|
    ensures OpenCount(entries + more, n, kind) == OpenCount(entries, n, kind)
    ensures OpenBytes(entries + more, n, kind) == OpenBytes(entries, n, kind)
  {
    if n > 0 {
      CountsOfPrefix(entries, more, n - 1, kind);
    }
  }

  lemma CountsOfNew(entries: seq<Entry>, body: Body, kind: Kind)
    ensures var grown, n := entries + [Entry(body, true)], |entries|;
            && OpenCount(grown, n + 1, kind) == OpenCount(entries, n, kind) + (if body.kind == kind then 1 else 0)
            && OpenBytes(grown, n + 1, kind)
               == OpenBytes(entries, n, kind) + (if body.kind == kind then |body.data| else 0)
  {
    CountsOfPrefix(entries, [Entry(body, true)], |entries|, kind);
  }

  lemma {:induction false} CountsOfClosed(entries: seq<Entry>, id: nat, n: nat, kind: Kind)
    requires id < |entries| && n <= |entries| && entries[id].open
    ensures var closed, e := entries[id := entries[id].(open := false)], entries[id];
            && OpenCount(entries, n, kind)
               == OpenCount(closed, n, kind) + (if id < n && e.body.kind == kind then 1 else 0)
            && OpenBytes(entries, n, kind)
               == OpenBytes(closed, n, kind) + (if id < n && e.body.kind == kind then |e.body.data| else 0)
  {
    if n > 0 {
      CountsOfClosed(entries, id, n - 1, kind);
    }
  }

  /** Every event keeps the counters exact, and no closing meets a counter it would push below zero. */
  lemma NextExact(w: World, e: Event)
    requires Exact(w)
    ensures Exact(Next(w, e))
    ensures e.CloseStorage? && e.id < |w.entries| && w.entries[e.id].open ==>
              !Underflows(w.stats, w.entries[e.id].body.kind, |w.entries[e.id].body.data|)
  {
    match e
    case Create(config, data, diskWorks) =>
      var body := Body(KindFor(w.stats, config, |data|, diskWorks), data);
      CountsOfNew(w.entries, body, OnDisk);
      CountsOfNew(w.entries, body, InMemory);
    case CreateFrom(config, stream, contentLength, maxBytes, diskWorks) =>
      var c := CreationFrom(w.stats, config, stream, contentLength, maxBytes, diskWorks);
      if c.Created? {
        CountsOfNew(w.entries, c.body, OnDisk);
        CountsOfNew(w.entries, c.body, InMemory);
      }
    case CloseStorage(id) =>
      if id < |w.entries| && w.entries[id].open {
        CountsOfClosed(w.entries, id, |w.entries|, OnDisk);
        CountsOfClosed(w.entries, id, |w.entries|, InMemory);
      }
  }

  function Run(w: World, events: seq<Event>): World
    decreases |events|
  {
    if events == [] then w else Run(Next(w, events[0]), events[1..])
  }

  /** Over every run, storages closed any number of times, the counters stay exact. */
  lemma {:induction false} RunExact(w: World, events: seq<Event>)
    requires Exact(w)
    ensures Exact(Run(w, events))
    decreases |events|
  {
    if events != [] {
      NextExact(w, events[0]);
      RunExact(Next(w, events[0]), events[1..]);
    }
  }

  predicate NoneOpen(entries: seq<Entry>) {
    forall i :: 0 <= i < |entries| ==> !entries[i].open
  }

  lemma {:induction false} NothingOpen(entries: seq<Entry>, n: nat, kind: Kind)
    requires n <= |entries| && NoneOpen(entries)
    ensures OpenCount(entries, n, kind) == 0 && OpenBytes(entries, n, kind) == 0
  {
    if n > 0 {
      NothingOpen(entries, n - 1, kind);
    }
  }

  /** Once everything is closed the usage counters are back at zero. */
  lemma AllClosed(events: seq<Event>)
    requires NoneOpen(Run(Start(), events).entries)
    ensures var s := Run(Start(), events).stats;
            s.diskFiles == 0 && s.diskBytes == 0 && s.memoryBuffers == 0 && s.memoryBytes == 0
  {
    RunExact(Start(), events);
    var entries := Run(Start(), events).entries;
    NothingOpen(entries, |entries|, OnDisk);
    NothingOpen(entries, |entries|, InMemory);
  }

  // ---------------------------------------------------------------- the disk maximum, one creation at a time

  predicate Within(w: World, config: Config) {
    w.stats.diskBytes <= config.maximum
  }

  /** A stream that is admitted to disk on its announced length and then delivers more, within its own limit. */
  predicate Overdelivers(e: Event, config: Config) {
    && e.CreateFrom? && e.config == config && e.diskWorks && config.enabled
    && 0 < e.contentLength && config.threshold <= e.contentLength <= config.maximum
    && e.contentLength < |e.stream| <= e.maxBytes < MAX_INT64
  }

  predicate Under(e: Event, config: Config) {
    e.CloseStorage? || e.config == config
  }

  /** A process whose only storage is one file of `n` bytes. */
  function OneFile(n: nat): World {
    World(Stats(1, n, 0, 0, 0, 0), [Entry(Body(OnDisk, seq(n, _ => 0)), true)])
  }

  lemma OneFileExact(n: nat)
    ensures Exact(OneFile(n))
  {
    var entries := OneFile(n).entries;
    assert OpenCount(entries, 0, OnDisk) == 0 && OpenBytes(entries, 0, OnDisk) == 0;
    assert OpenCount(entries, 1, OnDisk) == 1 && OpenBytes(entries, 1, OnDisk) == n;
    assert OpenCount(entries, 1, InMemory) == 0 && OpenBytes(entries, 1, InMemory) == 0;
  }

  ghost predicate AlwaysFits(e: Event, config: Config) {
    forall w :: Exact(w) && Within(w, config) ==> Within(Next(w, e), config)
  }

  /** One event keeps every process within the maximum exactly when it is not an overdelivering stream. */
  lemma FitsExactly(e: Event, config: Config)
    requires Under(e, config) && (e.CreateFrom? ==> -MAX_INT64 - 1 <= e.maxBytes <= MAX_INT64)
    ensures AlwaysFits(e, config) <==> !Overdelivers(e, config)
  {
    if Overdelivers(e, config) {
      var w := OneFile(config.maximum - e.contentLength);
      OneFileExact(config.maximum - e.contentLength);
      SizeGate(w.stats, config, e.stream, e.contentLength, e.maxBytes);
      assert Exact(w) && Within(w, config) && !Within(Next(w, e), config);
    } else {
      forall w | Exact(w) && Within(w, config) ensures Within(Next(w, e), config) {
      }
    }
  }

  /** Creations one after the other, none of them overdelivering, stay within the maximum. */
  lemma {:induction false} HonestRunsFit(w: World, events: seq<Event>, config: Config)
    requires Exact(w) && Within(w, config)
    requires forall i :: 0 <= i < |events| ==> Under(events[i], config) && !Overdelivers(events[i], config)
    requires forall i :: 0 <= i < |events| && events[i].CreateFrom? ==>
               -MAX_INT64 - 1 <= events[i].maxBytes <= MAX_INT64
    ensures Within(Run(w, events), config)
    decreases |events|
  {
    if events != [] {
      NextExact(w, events[0]);
      HonestRunsFit(Next(w, events[0]), events[1..], config);
    }
  }

  /** A stream that announces less than it delivers can overrun the maximum. */
  lemma ShortAnnouncementOverruns(stream: seq<Byte>, maximum: int)
    requires 1 <= maximum < |stream| < MAX_INT64
    ensures var e := CreateFrom(Config(true, 1, maximum), stream, 1, |stream|, true);
            Next(Start(), e).stats.diskBytes == |stream| > maximum
  {
    SizeGate(Start().stats, Config(true, 1, maximum), stream, 1, |stream|);
  }

  // ---------------------------------------------------------------- concurrent creations

  /** A creation past the test of the disk usage, its body not counted yet. */
  datatype Ticket = Ticket(body: Body, announced: int, hit: bool)

  datatype Server = Server(world: World, tickets: seq<Ticket>)

  /**
    The atomic steps of concurrent requests: testing the usage and counting a new body are two steps. A
    stream that the first test keeps off the disk is read and goes through `AdmitWhole`.
   */
  datatype Move =
    | AdmitWhole(config: Config, data: seq<Byte>, diskWorks: bool, hit: bool)
    | AdmitStream(config: Config, stream: seq<Byte>, contentLength: int, maxBytes: int)
    | Commit(k: nat)
    | Dispose(id: nat)

  function Admitted(w: World, m: Move): seq<Ticket> {
    match m
    case AdmitWhole(config, data, diskWorks, hit) =>
      [Ticket(Body(KindFor(w.stats, config, |data|, diskWorks), data), |data|, hit)]
    case AdmitStream(config, stream, contentLength, maxBytes) =>
      var data := Limited(stream, Successor(maxBytes));
      if StreamsToDisk(w.stats, config, contentLength) && |data| <= maxBytes
      then [Ticket(Body(OnDisk, data), contentLength, true)] else []
    case _ => []
  }

  function Counted(w: World, ticket: Ticket): World {
    var stats := Opened(w.stats, ticket.body.kind, |ticket.body.data|);
    World(if ticket.hit then Hit(stats, ticket.body.kind) else stats, w.entries + [Entry(ticket.body, true)])
  }

  function Perform(s: Server, m: Move): Server {
    match m
    case Commit(k) =>
      if k >= |s.tickets| then s
      else Server(Counted(s.world, s.tickets[k]), s.tickets[..k] + s.tickets[k + 1..])
    case Dispose(id) => s.(world := Next(s.world, CloseStorage(id)))
    case _ => s.(tickets := s.tickets + Admitted(s.world, m))
  }

  function Serve(s: Server, moves: seq<Move>): Server
    decreases |moves|
  {
    if moves == [] then s else Serve(Perform(s, moves[0]), moves[1..])
  }

  lemma AdmitThenCommit(w: World, admit: Move)
    requires (admit.AdmitWhole? || admit.AdmitStream?) && |Admitted(w, admit)| == 1
    ensures Serve(Server(w, []), [admit, Commit(0)]) == Server(Counted(w, Admitted(w, admit)[0]), [])
  {
    var commit := Commit(0);
    var a := Perform(Server(w, []), admit);
    assert a.tickets == Admitted(w, admit);
    var b := Perform(a, commit);
    assert b.tickets == [];
    assert [admit, commit][1..] == [commit] && [commit][1..] == [];
    assert Serve(b, []) == b && Serve(a, [commit]) == b;
  }

  /** The admission by which a creation that succeeds alone takes its place. */
  function AdmissionOf(w: World, e: Event): Move
    requires !e.CloseStorage?
  {
    match e
    case Create(config, data, diskWorks) => AdmitWhole(config, data, diskWorks, false)
    case CreateFrom(config, stream, contentLength, maxBytes, diskWorks) =>
      if StreamsToDisk(w.stats, config, contentLength) then AdmitStream(config, stream, contentLength, maxBytes)
      else AdmitWhole(config, Limited(stream, Successor(maxBytes)), diskWorks, true)
  }

  /** Alone, admitting and then counting a body is the creation in one piece. */
  lemma CreationIsAdmitThenCommit(w: World, e: Event)
    requires !e.CloseStorage? && |Next(w, e).entries| > |w.entries|
    ensures Serve(Server(w, []), [AdmissionOf(w, e), Commit(0)]) == Server(Next(w, e), [])
  {
    AdmitThenCommit(w, AdmissionOf(w, e));
  }

  /** The counters stay exact however the requests interleave. */
  lemma PerformExact(s: Server, m: Move)
    requires Exact(s.world)
    ensures Exact(Perform(s, m).world)
  {
    match m
    case Commit(k) =>
      if k < |s.tickets| {
        CountsOfNew(s.world.entries, s.tickets[k].body, OnDisk);
        CountsOfNew(s.world.entries, s.tickets[k].body, InMemory);
      }
    case Dispose(id) => NextExact(s.world, CloseStorage(id));
    case _ =>
  }

  lemma {:induction false} ServeExact(s: Server, moves: seq<Move>)
    requires Exact(s.world)
    ensures Exact(Serve(s, moves).world)
    decreases |moves|
  {
    if moves != [] {
      PerformExact(s, moves[0]);
      ServeExact(Perform(s, moves[0]), moves[1..]);
    }
  }

  function OnDiskSize(ticket: Ticket): nat {
    if ticket.body.kind.OnDisk? then |ticket.body.data| else 0
  }

  /** The bytes that admitted creations are still to add to the disk usage. */
  function Reserved(tickets: seq<Ticket>): nat {
    if tickets == [] then 0 else OnDiskSize(tickets[0]) + Reserved(tickets[1..])
  }

  /** How much an admitted body exceeds the length its test assumed. */
  function Excess(ticket: Ticket): int {
    var n := OnDiskSize(ticket);
    if ticket.body.kind.OnDisk? && n > ticket.announced then n - ticket.announced else 0
  }

  predicate AdmitsWithin(s: Server, m: Move, slack: int) {
    forall ticket :: ticket in Admitted(s.world, m) && ticket.body.kind.OnDisk? ==>
      Reserved(s.tickets) + Excess(ticket) <= slack
  }

  /** Every admission to disk finds at most `slack` bytes reserved, its own excess included. */
  predicate Overlap(s: Server, moves: seq<Move>, slack: int)
    decreases |moves|
  {
    moves == [] || (AdmitsWithin(s, moves[0], slack) && Overlap(Perform(s, moves[0]), moves[1..], slack))
  }

  predicate SameMaximum(m: Move, maximum: int) {
    (m.AdmitWhole? || m.AdmitStream?) ==> m.config.maximum == maximum
  }

  lemma {:induction false} ReservedAppend(tickets: seq<Ticket>, more: seq<Ticket>)
    ensures Reserved(tickets + more) == Reserved(tickets) + Reserved(more)
    decreases |tickets|
  {
    if tickets == [] {
      assert tickets + more == more;
    } else {
      ReservedAppend(tickets[1..], more);
      assert (tickets + more)[1..] == tickets[1..] + more;
    }
  }

  lemma ReservedWithout(tickets: seq<Ticket>, k: nat)
    requires k < |tickets|
    ensures Reserved(tickets) == Reserved(tickets[..k] + tickets[k + 1..]) + OnDiskSize(tickets[k])
  {
    ReservedAppend(tickets[..k], tickets[k + 1..]);
    ReservedAppend(tickets[..k], tickets[k..]);
    assert tickets[..k] + tickets[k..] == tickets && tickets[k..][1..] == tickets[k + 1..];
  }

  /** The usage counted and reserved together. */
  function Claimed(s: Server): int {
    s.world.stats.diskBytes + Reserved(s.tickets)
  }

  lemma AdmissionClaims(s: Server, m: Move, maximum: int, slack: int)
    requires m.AdmitWhole? || m.AdmitStream?
    requires SameMaximum(m, maximum) && AdmitsWithin(s, m, slack) && Claimed(s) <= maximum + slack
    ensures Claimed(Perform(s, m)) <= maximum + slack
  {
    var more := Admitted(s.world, m);
    ReservedAppend(s.tickets, more);
    if more != [] {
      var ticket := more[0];
      assert ticket in more && more == [ticket] && more[1..] == [];
    }
  }

  lemma PerformClaims(s: Server, m: Move, maximum: int, slack: int)
    requires Exact(s.world) && SameMaximum(m, maximum) && AdmitsWithin(s, m, slack) && Claimed(s) <= maximum + slack
    ensures Claimed(Perform(s, m)) <= maximum + slack
  {
    match m
    case Commit(k) => if k < |s.tickets| { ReservedWithout(s.tickets, k); }
    case Dispose(_) =>
    case _ => AdmissionClaims(s, m, maximum, slack);
  }

  /**
    However requests interleave, the counted usage exceeds the maximum by no more than the bytes reserved by
    creations admitted together, and the excess of what was announced too short.
   */
  lemma {:induction false} ConcurrentUsage(s: Server, moves: seq<Move>, maximum: int, slack: int)
    requires Exact(s.world) && Claimed(s) <= maximum + slack && Overlap(s, moves, slack)
    requires forall i :: 0 <= i < |moves| ==> SameMaximum(moves[i], maximum)
    ensures Serve(s, moves).world.stats.diskBytes <= Claimed(Serve(s, moves)) <= maximum + slack
    decreases |moves|
  {
    if moves != [] {
      PerformClaims(s, moves[0], maximum, slack);
      PerformExact(s, moves[0]);
      ConcurrentUsage(Perform(s, moves[0]), moves[1..], maximum, slack);
    }
  }

  /** The bound is met: two honest bodies admitted before either is counted are both counted, fit or not. */
  lemma HonestOverrun(config: Config, a: seq<Byte>, b: seq<Byte>)
    requires config.enabled && config.threshold <= |a| <= config.maximum && config.threshold <= |b| <= config.maximum
    ensures var moves := [AdmitWhole(config, a, true, false), AdmitWhole(config, b, true, false), Commit(0), Commit(0)];
            var usage := Serve(Server(Start(), []), moves).world.stats.diskBytes;
            usage == |a| + |b| && (|a| + |b| > config.maximum ==> usage > config.maximum)
  {
    var x, y, z := AdmitWhole(config, a, true, false), AdmitWhole(config, b, true, false), Commit(0);
    var first, second := Ticket(Body(OnDisk, a), |a|, false), Ticket(Body(OnDisk, b), |b|, false);
    var start := Server(Start(), []);
    var one := Perform(start, x);
    assert one == Server(Start(), [first]);
    var two := Perform(one, y);
    assert two == Server(Start(), [first, second]);
    var three := Perform(two, z);
    assert three.tickets == [second] && three.world.stats.diskBytes == |a|;
    var four := Perform(three, z);
    assert [x, y, z, z][1..] == [y, z, z] && [y, z, z][1..] == [z, z] && [z, z][1..] == [z] && [z][1..] == [];
    assert Serve(four, []) == four && Serve(three, [z]) == four && Serve(two, [z, z]) == four;
    assert Serve(one, [y, z, z]) == four;
  }

  /** Only a creation from a reader counts a hit, one of the kind it made. */
  lemma HitsWrittenOut(w: World, e: Event)
    ensures var next := Next(w, e);
            var made := e.CreateFrom? && |next.entries| > |w.entries|;
            && next.stats.diskHits
               == w.stats.diskHits + (if made && next.entries[|w.entries|].body.kind == OnDisk then 1 else 0)
            && next.stats.memoryHits
               == w.stats.memoryHits + (if made && next.entries[|w.entries|].body.kind == InMemory then 1 else 0)
  {
  }
}
