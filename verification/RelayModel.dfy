/**
 The collaboration relay (server/src/collab/relay.ts) as a state machine whose steps interleave
 freely: sockets open, are admitted, close and are kicked; an update is persisted in one step and
 broadcast in a later one; clients page the backlog; the log is compacted. Update contents are sets
 of operations, so that merging is union, as for any conflict-free document.
 */
module RelayModel {
  import opened Prelude
  import opened Forest
  import opened KeyGraph

  type SocketId = nat
  type Op = nat

  const COLLAB_PAGE_SIZE: nat := 5000

  /** What a socket asked for; `rooms` and `orgRooms` are one map keyed by it. */
  datatype Target = NodeRoom(node: NodeId) | OrgRoom(org: OrgId)

  type Rooms = map<Target, set<SocketId>>

  /** Opening: admission queries under way. Live: counted and registered. Disposed: cleaned up. */
  datatype Phase = Opening | Refused | Live | Disposed

  datatype Socket = Socket(user: UserId, target: Target, closed: bool, phase: Phase)

  /** A row of `collab_updates`. */
  datatype Row = Row(id: nat, node: NodeId, ops: set<Op>)

  /** History: an update some peer persisted. */
  datatype Update = Update(node: NodeId, sender: SocketId, ops: set<Op>)

  /** What the client behind a socket has integrated, and how far it has paged. */
  datatype Client = Client(cursor: nat, done: bool, have: set<Op>)

  /** A client about to compact: it reads the log from the start, leaves out what it cannot decrypt, and
      remembers the last row before the first of those (`upTo`). */
  datatype Reader = Reader(node: NodeId, cursor: nat, have: set<Op>, upTo: nat, blocked: bool)

  datatype State = State(
    sockets: map<SocketId, Socket>, rooms: Rooms,
    connections: map<UserId, nat>, log: seq<Row>, nextSeq: nat,
    pending: set<nat>, updates: map<nat, Update>, acked: set<nat>, compactions: set<(NodeId, nat)>,
    clients: map<SocketId, Client>, readers: map<nat, Reader>, purged: set<NodeId>)

  datatype Event =
    | Open(socket: SocketId, user: UserId, target: Target)
    | Refuse(socket: SocketId)
    | Admit(socket: SocketId, limit: nat)
    | Gone(socket: SocketId)
    | KickRoom(node: NodeId)
    | Persist(socket: SocketId, ops: set<Op>)
    | Deliver(id: nat)
    | Page(socket: SocketId)
    | Compact(node: NodeId, upTo: nat, snapshot: set<Op>)
    | Read(reader: nat, node: NodeId)
    | ReadPage(reader: nat, unreadable: set<nat>)
    | Purge(node: NodeId)

  // ---------------------------------------------------------------- rooms and counters

  function RoomOf(rooms: Rooms, t: Target): set<SocketId> {
    if t in rooms then rooms[t] else {}
  }

  function Register(rooms: Rooms, t: Target, p: SocketId): Rooms {
    rooms[t := RoomOf(rooms, t) + {p}]
  }

  /** cleanup: the peer leaves the room it asked for, and an empty room is dropped. */
  function Unregister(rooms: Rooms, t: Target, p: SocketId): Rooms {
    if t !in rooms then rooms
    else if rooms[t] - {p} == {} then rooms - {t}
    else rooms[t := rooms[t] - {p}]
  }

  function OpenCount(connections: map<UserId, nat>, u: UserId): nat {
    if u in connections then connections[u] else 0
  }

  function Decrement(connections: map<UserId, nat>, u: UserId): map<UserId, nat> {
    var n: int := (if u in connections then connections[u] as int else 1) - 1;
    if n <= 0 then connections - {u} else connections[u := n]
  }

  // ---------------------------------------------------------------- the log

  /** SELECT ... WHERE node_id = n AND id > since ORDER BY id. */
  function Backlog(log: seq<Row>, n: NodeId, since: nat): (r: seq<Row>)
    ensures forall x :: x in r <==> x in log && x.node == n && x.id > since
  {
    if |log| == 0 then []
    else
      var rest := Backlog(log[1..], n, since);
      assert forall x :: x in log <==> x == log[0] || x in log[1..];
      if log[0].node == n && log[0].id > since then [log[0]] + rest else rest
  }

  /** DELETE ... WHERE node_id = n AND id <= upTo. */
  function Without(log: seq<Row>, n: NodeId, upTo: nat): (r: seq<Row>)
    ensures forall x :: x in r <==> x in log && !(x.node == n && x.id <= upTo)
  {
    if |log| == 0 then []
    else
      var rest := Without(log[1..], n, upTo);
      assert forall x :: x in log <==> x == log[0] || x in log[1..];
      if log[0].node == n && log[0].id <= upTo then rest else [log[0]] + rest
  }

  function OpsOf(rows: seq<Row>): set<Op> {
    set r, x | r in rows && x in r.ops :: x
  }

  /** The document of a node: the merge of its rows. */
  function Doc(log: seq<Row>, n: NodeId): set<Op> {
    set r, x | r in log && r.node == n && x in r.ops :: x
  }

  /** The page a client at `cursor` gets, and whether more rows are left. */
  function PageRows(log: seq<Row>, n: NodeId, cursor: nat): (seq<Row>, bool) {
    var rows := Backlog(log, n, cursor);
    if |rows| > COLLAB_PAGE_SIZE then (rows[..COLLAB_PAGE_SIZE], true) else (rows, false)
  }

  function AfterPage(c: Client, page: seq<Row>, hasMore: bool): Client {
    Client(if |page| > 0 then page[|page| - 1].id else c.cursor, c.done || !hasMore, c.have + OpsOf(page))
  }

  /** A reader integrates the rows of a page, one by one. */
  function Integrate(c: Reader, rows: seq<Row>, unreadable: set<nat>): Reader
    decreases |rows|
  {
    if |rows| == 0 then c
    else
      var r := rows[0];
      var next := if r.id in unreadable then c.(cursor := r.id, blocked := true)
                  else c.(cursor := r.id, have := c.have + r.ops, upTo := if c.blocked then c.upTo else r.id);
      Integrate(next, rows[1..], unreadable)
  }

  // ---------------------------------------------------------------- the steps

  function DoAdmit(s: State, p: SocketId, limit: nat): State
    requires p in s.sockets
  {
    var k := s.sockets[p];
    if k.phase != Opening || k.closed then s
    else if OpenCount(s.connections, k.user) >= limit then s.(sockets := s.sockets[p := k.(phase := Refused)])
    else
      s.(sockets := s.sockets[p := k.(phase := Live)], rooms := Register(s.rooms, k.target, p),
         connections := s.connections[k.user := OpenCount(s.connections, k.user) + 1],
         clients := s.clients[p := Client(0, false, {})])
  }

  /** `close` or `error`; the cleanup runs once, and only for a socket that was registered. */
  function DoGone(s: State, p: SocketId): State
    requires p in s.sockets
  {
    var k := s.sockets[p];
    if k.closed then s
    else if k.phase != Live then s.(sockets := s.sockets[p := k.(closed := true)])
    else
      s.(sockets := s.sockets[p := k.(closed := true, phase := Disposed)], rooms := Unregister(s.rooms, k.target, p),
         connections := Decrement(s.connections, k.user))
  }

  /** A socket whose message handler was installed, for a node room. */
  predicate CanSend(s: State, p: SocketId) {
    && p in s.sockets && (s.sockets[p].phase == Live || s.sockets[p].phase == Disposed)
    && s.sockets[p].target.NodeRoom? && p in s.clients
  }

  function DoPersist(s: State, p: SocketId, ops: set<Op>): State
    requires CanSend(s, p)
  {
    var n := s.sockets[p].target.node;
    s.(log := s.log + [Row(s.nextSeq, n, ops)], nextSeq := s.nextSeq + 1,
       pending := s.pending + {s.nextSeq}, updates := s.updates[s.nextSeq := Update(n, p, ops)],
       clients := s.clients[p := s.clients[p].(have := s.clients[p].have + ops)])
  }

  /** broadcast to the room except the sender, then acknowledge to the sender. */
  function DoDeliver(s: State, q: nat): State
    requires q in s.pending && q in s.updates
  {
    var u := s.updates[q];
    var heard := RoomOf(s.rooms, NodeRoom(u.node)) - {u.sender};
    s.(pending := s.pending - {q}, acked := s.acked + {q},
       clients := map c | c in s.clients ::
         if c in heard then s.clients[c].(have := s.clients[c].have + u.ops) else s.clients[c])
  }

  function DoCompact(s: State, n: NodeId, upTo: nat, snapshot: set<Op>): State {
    s.(log := Without(s.log, n, upTo) + [Row(s.nextSeq, n, snapshot)], nextSeq := s.nextSeq + 1,
       compactions := s.compactions + {(n, upTo)})
  }

  /** The cascade of a node's deletion over its updates; the id is never used again. */
  function DoPurge(s: State, n: NodeId): State {
    s.(log := Without(s.log, n, s.nextSeq), purged := s.purged + {n})
  }

  function DoReadPage(s: State, i: nat, unreadable: set<nat>): State
    requires i in s.readers
  {
    var c := s.readers[i];
    var (page, _) := PageRows(s.log, c.node, c.cursor);
    s.(readers := s.readers[i := Integrate(c, page, unreadable)])
  }

  /** The node of an admitted socket still exists: the guarded insert and the permission checks ask it. */
  predicate Exists(s: State, p: SocketId)
    requires CanSend(s, p)
  {
    s.sockets[p].target.node !in s.purged
  }

  function Step(s: State, e: Event): State {
    match e
    case Open(p, u, t) => if p in s.sockets then s else s.(sockets := s.sockets[p := Socket(u, t, false, Opening)])
    case Refuse(p) =>
      if p in s.sockets && s.sockets[p].phase == Opening then s.(sockets := s.sockets[p := s.sockets[p].(phase := Refused)]) else s
    case Admit(p, limit) => if p in s.sockets then DoAdmit(s, p, limit) else s
    case Gone(p) => if p in s.sockets then DoGone(s, p) else s
    case KickRoom(n) => s.(rooms := s.rooms - {NodeRoom(n)})
    case Persist(p, ops) => if CanSend(s, p) && Exists(s, p) then DoPersist(s, p, ops) else s
    case Deliver(q) => if q in s.pending && q in s.updates then DoDeliver(s, q) else s
    case Page(p) =>
      if !CanSend(s, p) || !Exists(s, p) then s
      else
        var (page, hasMore) := PageRows(s.log, s.sockets[p].target.node, s.clients[p].cursor);
        s.(clients := s.clients[p := AfterPage(s.clients[p], page, hasMore)])
    case Compact(n, upTo, snapshot) => if n in s.purged then s else DoCompact(s, n, upTo, snapshot)
    case Read(i, n) => if i in s.readers then s else s.(readers := s.readers[i := Reader(n, 0, {}, 0, false)])
    case ReadPage(i, unreadable) => if i in s.readers && s.readers[i].node !in s.purged then DoReadPage(s, i, unreadable) else s
    case Purge(n) => DoPurge(s, n)
  }

  const EMPTY: State := State(map[], map[], map[], [], 1, {}, map[], {}, {}, map[], map[], {})

  function Run(s: State, es: seq<Event>): State
    decreases |es|
  {
    if |es| == 0 then s else Run(Step(s, es[0]), es[1..])
  }

  /** An honest compactor puts into its snapshot at least what it replaces. */
  predicate Honest(s: State, e: Event) {
    e.Compact? ==> forall r | r in s.log :: r.node == e.node && r.id <= e.upTo ==> r.ops <= e.snapshot
  }

  predicate HonestRun(s: State, es: seq<Event>)
    decreases |es|
  {
    |es| == 0 || (Honest(s, es[0]) && HonestRun(Step(s, es[0]), es[1..]))
  }

  // ---------------------------------------------------------------- connection counters

  type Sockets = map<SocketId, Socket>

  predicate IsLive(sockets: Sockets, p: SocketId) {
    p in sockets && sockets[p].phase == Live
  }

  function LiveSockets(sockets: Sockets, u: UserId): set<SocketId> {
    set p | p in sockets && IsLive(sockets, p) && sockets[p].user == u
  }

  /** connectionsByUser counts exactly the admitted, undisposed sockets. */
  ghost predicate CountsOk(sockets: Sockets, connections: map<UserId, nat>) {
    && (forall u :: OpenCount(connections, u) == |LiveSockets(sockets, u)|)
    && (forall u :: u in connections ==> connections[u] > 0)
  }

  /** Only p changes, from one phase to another. */
  lemma CountAfter(before: Sockets, p: SocketId, now: Socket, v: UserId)
    requires p in before && now.user == before[p].user
    ensures |LiveSockets(before[p := now], v)| == |LiveSockets(before, v)|
              - (if before[p].user == v && before[p].phase == Live then 1 else 0)
              + (if before[p].user == v && now.phase == Live then 1 else 0)
  {
    var a, b := LiveSockets(before, v), LiveSockets(before[p := now], v);
    OthersSame(before, p, now, v);
    SizeWith(a, p);
    SizeWith(b, p);
  }

  lemma OthersSame(before: Sockets, p: SocketId, now: Socket, v: UserId)
    ensures LiveSockets(before, v) - {p} == LiveSockets(before[p := now], v) - {p}
  {
  }

  lemma SizeWith(a: set<SocketId>, p: SocketId)
    ensures |a| == |a - {p}| + if p in a then 1 else 0
  {
    if p in a {
      assert a == (a - {p}) + {p};
    } else {
      assert a == a - {p};
    }
  }

  lemma CountsUnchanged(before: Sockets, p: SocketId, now: Socket, connections: map<UserId, nat>)
    requires CountsOk(before, connections)
    requires if p in before then now.user == before[p].user && (now.phase == Live <==> before[p].phase == Live) else now.phase != Live
    ensures CountsOk(before[p := now], connections)
  {
    forall v
      ensures LiveSockets(before[p := now], v) == LiveSockets(before, v)
    {
    }
  }

  lemma CountsUp(before: Sockets, p: SocketId, connections: map<UserId, nat>)
    requires CountsOk(before, connections) && p in before && before[p].phase != Live
    ensures CountsOk(before[p := before[p].(phase := Live)],
                     connections[before[p].user := OpenCount(connections, before[p].user) + 1])
  {
    var after := before[p := before[p].(phase := Live)];
    var counts := connections[before[p].user := OpenCount(connections, before[p].user) + 1];
    forall v
      ensures OpenCount(counts, v) == |LiveSockets(after, v)|
    {
      CountAfter(before, p, after[p], v);
    }
  }

  lemma CountsDown(before: Sockets, p: SocketId, connections: map<UserId, nat>)
    requires CountsOk(before, connections) && p in before && before[p].phase == Live
    ensures CountsOk(before[p := before[p].(closed := true, phase := Disposed)], Decrement(connections, before[p].user))
  {
    var after := before[p := before[p].(closed := true, phase := Disposed)];
    var counts := Decrement(connections, before[p].user);
    forall v
      ensures OpenCount(counts, v) == |LiveSockets(after, v)|
    {
      CountAfter(before, p, after[p], v);
      assert OpenCount(connections, v) == |LiveSockets(before, v)|;
    }
  }

  /** The other events leave the sockets, their counters, and who has a client as they are. */
  predicate IsSocketEvent(e: Event) {
    e.Open? || e.Refuse? || e.Admit? || e.Gone?
  }

  lemma OthersKeepSockets(s: State, e: Event)
    requires !IsSocketEvent(e)
    ensures Step(s, e).sockets == s.sockets && Step(s, e).connections == s.connections
    ensures Step(s, e).clients.Keys == s.clients.Keys
  {
  }

  lemma StepKeepsCounts(s: State, e: Event)
    requires CountsOk(s.sockets, s.connections)
    ensures CountsOk(Step(s, e).sockets, Step(s, e).connections)
  {
    if IsSocketEvent(e) {
      SocketsKeepCounts(s, e);
    } else {
      OthersKeepSockets(s, e);
    }
  }

  lemma SocketsKeepCounts(s: State, e: Event)
    requires CountsOk(s.sockets, s.connections) && IsSocketEvent(e)
    ensures CountsOk(Step(s, e).sockets, Step(s, e).connections)
  {
    match e
    case Open(p, u, t) => if p !in s.sockets { CountsUnchanged(s.sockets, p, Socket(u, t, false, Opening), s.connections); }
    case Refuse(p) =>
      if p in s.sockets && s.sockets[p].phase == Opening {
        CountsUnchanged(s.sockets, p, s.sockets[p].(phase := Refused), s.connections);
      }
    case Admit(p, limit) =>
      if p in s.sockets && s.sockets[p].phase == Opening && !s.sockets[p].closed {
        CountsUnchanged(s.sockets, p, s.sockets[p].(phase := Refused), s.connections);
        CountsUp(s.sockets, p, s.connections);
      }
    case Gone(p) =>
      if p in s.sockets && !s.sockets[p].closed {
        if s.sockets[p].phase == Live {
          CountsDown(s.sockets, p, s.connections);
        } else {
          CountsUnchanged(s.sockets, p, s.sockets[p].(closed := true), s.connections);
        }
      }
  }

  /** Rooms are never empty and hold only admitted, undisposed sockets that asked for them. */
  predicate RoomsHoldLive(sockets: Sockets, rooms: Rooms) {
    forall t | t in rooms :: rooms[t] != {} && forall p | p in rooms[t] :: IsLive(sockets, p) && sockets[p].target == t
  }

  predicate LiveAreOpen(sockets: Sockets) {
    forall p | p in sockets && IsLive(sockets, p) :: !sockets[p].closed
  }

  /** A socket has a client behind it exactly from the moment it is admitted. */
  predicate ClientsOk(sockets: Sockets, clients: map<SocketId, Client>) {
    && (forall p | p in sockets && sockets[p].phase in {Live, Disposed} :: p in clients)
    && (forall p | p in clients :: p in sockets && sockets[p].phase in {Live, Disposed})
  }

  predicate RoomsOk(s: State) {
    RoomsHoldLive(s.sockets, s.rooms) && LiveAreOpen(s.sockets) && ClientsOk(s.sockets, s.clients)
  }

  /** A socket that does not become or stop being live changes no room. */
  lemma RoomsUnchanged(before: Sockets, rooms: Rooms, p: SocketId, now: Socket)
    requires RoomsHoldLive(before, rooms) && !IsLive(before, p)
    ensures RoomsHoldLive(before[p := now], rooms)
  {
    forall t, q | t in rooms && q in rooms[t]
      ensures IsLive(before[p := now], q) && before[p := now][q].target == t
    {
      assert IsLive(before, q);
    }
  }

  lemma RegisterKeepsRooms(before: Sockets, rooms: Rooms, p: SocketId)
    requires RoomsHoldLive(before, rooms) && p in before && !IsLive(before, p)
    ensures RoomsHoldLive(before[p := before[p].(phase := Live)], Register(rooms, before[p].target, p))
  {
    RoomsUnchanged(before, rooms, p, before[p].(phase := Live));
  }

  lemma UnregisterKeepsRooms(before: Sockets, rooms: Rooms, p: SocketId, now: Socket)
    requires RoomsHoldLive(before, rooms) && IsLive(before, p)
    ensures RoomsHoldLive(before[p := now], Unregister(rooms, before[p].target, p))
  {
    var after := Unregister(rooms, before[p].target, p);
    forall t, q | t in after && q in after[t]
      ensures IsLive(before[p := now], q) && before[p := now][q].target == t
    {
      assert IsLive(before, q) && before[q].target == t;
    }
  }

  lemma StepKeepsHeld(s: State, e: Event)
    requires RoomsHoldLive(s.sockets, s.rooms)
    ensures RoomsHoldLive(Step(s, e).sockets, Step(s, e).rooms)
  {
    match e
    case Open(p, u, t) => if p !in s.sockets { RoomsUnchanged(s.sockets, s.rooms, p, Socket(u, t, false, Opening)); }
    case Refuse(p) =>
      if p in s.sockets && s.sockets[p].phase == Opening {
        RoomsUnchanged(s.sockets, s.rooms, p, s.sockets[p].(phase := Refused));
      }
    case Admit(p, limit) =>
      if p in s.sockets && s.sockets[p].phase == Opening {
        RoomsUnchanged(s.sockets, s.rooms, p, s.sockets[p].(phase := Refused));
        RegisterKeepsRooms(s.sockets, s.rooms, p);
      }
    case Gone(p) =>
      if p in s.sockets && !s.sockets[p].closed {
        if IsLive(s.sockets, p) {
          UnregisterKeepsRooms(s.sockets, s.rooms, p, s.sockets[p].(closed := true, phase := Disposed));
        } else {
          RoomsUnchanged(s.sockets, s.rooms, p, s.sockets[p].(closed := true));
        }
      }
    case _ =>
  }

  lemma StepKeepsOpen(s: State, e: Event)
    requires LiveAreOpen(s.sockets)
    ensures LiveAreOpen(Step(s, e).sockets)
  {
  }

  lemma StepKeepsClients(s: State, e: Event)
    requires ClientsOk(s.sockets, s.clients)
    ensures ClientsOk(Step(s, e).sockets, Step(s, e).clients)
  {
    match e
    case Open(_, _, _) =>
    case Refuse(_) =>
    case Admit(p, limit) => if p in s.sockets { AdmitKeepsClients(s, p, limit); }
    case Gone(p) => if p in s.sockets { GoneKeepsClients(s, p); }
    case _ => OthersKeepSockets(s, e);
  }

  lemma GoneKeepsClients(s: State, p: SocketId)
    requires ClientsOk(s.sockets, s.clients) && p in s.sockets
    ensures ClientsOk(DoGone(s, p).sockets, DoGone(s, p).clients)
  {
  }

  lemma AdmitKeepsClients(s: State, p: SocketId, limit: nat)
    requires ClientsOk(s.sockets, s.clients) && p in s.sockets
    ensures ClientsOk(DoAdmit(s, p, limit).sockets, DoAdmit(s, p, limit).clients)
  {
  }

  lemma StepKeepsRooms(s: State, e: Event)
    requires RoomsOk(s)
    ensures RoomsOk(Step(s, e))
  {
    StepKeepsHeld(s, e);
    StepKeepsOpen(s, e);
    StepKeepsClients(s, e);
  }

  /** Once every socket is closed nothing is left behind: no count, no room. */
  lemma NoLeak(s: State)
    requires CountsOk(s.sockets, s.connections) && RoomsOk(s) && forall p :: p in s.sockets ==> s.sockets[p].closed
    ensures s.connections == map[] && s.rooms == map[]
  {
    forall u
      ensures u !in s.connections
    {
      assert LiveSockets(s.sockets, u) == {};
      assert OpenCount(s.connections, u) == 0;
    }
    forall t
      ensures t !in s.rooms
    {
      assert RoomOf(s.rooms, t) == {};
    }
  }

  /** The per-user limit holds over every run that always admits under the same limit. */
  lemma LimitHolds(s: State, e: Event, limit: nat)
    requires CountsOk(s.sockets, s.connections) && (e.Admit? ==> e.limit == limit)
    requires forall u :: |LiveSockets(s.sockets, u)| <= limit
    ensures forall u :: |LiveSockets(Step(s, e).sockets, u)| <= limit
  {
    StepKeepsCounts(s, e);
    forall u
      ensures |LiveSockets(Step(s, e).sockets, u)| <= limit
    {
      assert OpenCount(s.connections, u) == |LiveSockets(s.sockets, u)|;
      assert OpenCount(Step(s, e).connections, u) == |LiveSockets(Step(s, e).sockets, u)|;
    }
  }
}
