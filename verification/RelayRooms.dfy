/**
 Who hears what on the relay (server/src/collab/relay.ts): a delivery reaches the room and nobody else,
 a kick empties the room for good, and nothing of one node ever reaches the clients of another.
 */
module RelayRooms {
  import opened Prelude
  import opened Forest
  import opened KeyGraph
  import opened RelayModel
  import opened RelayDelivery

  // ---------------------------------------------------------------- one delivery

  /** Every other client of the room integrates the update, no other client changes in any way, and the
      sender's acknowledgement is recorded. */
  lemma DeliveryReaches(s: State, q: nat, p: SocketId)
    requires q in s.pending && q in s.updates && p in s.clients
    ensures var t, u := Step(s, Deliver(q)), s.updates[q];
            && t.clients.Keys == s.clients.Keys && q in t.acked && q !in t.pending
            && (p != u.sender && NodeRoom(u.node) in s.rooms && p in s.rooms[NodeRoom(u.node)] ==>
                  t.clients[p].have == s.clients[p].have + u.ops
                  && t.clients[p].cursor == s.clients[p].cursor && t.clients[p].done == s.clients[p].done)
            && (p == u.sender || NodeRoom(u.node) !in s.rooms || p !in s.rooms[NodeRoom(u.node)] ==> t.clients[p] == s.clients[p])
  {
  }

  // ---------------------------------------------------------------- kicks

  /** A kick drops the room of the node and changes nothing else. */
  lemma KickEmptiesRoom(s: State, n: NodeId)
    ensures var t := Step(s, KickRoom(n));
            && NodeRoom(n) !in t.rooms && t.(rooms := s.rooms) == s
            && forall x :: x != NodeRoom(n) ==> (x in t.rooms <==> x in s.rooms) && (x in t.rooms ==> t.rooms[x] == s.rooms[x])
  {
  }

  /** An admitted socket that is in no room for the target never gets into one again. */
  lemma {:induction false} StaysOut(s: State, es: seq<Event>, p: SocketId, x: Target)
    requires Inv(s) && p in s.clients && p !in RoomOf(s.rooms, x)
    ensures p in Run(s, es).clients && p !in RoomOf(Run(s, es).rooms, x)
    decreases |es|
  {
    if |es| > 0 {
      RunKeeps(s, es[..1]);
      assert Run(s, es[..1]) == Step(s, es[0]);
      StillOut(s, es[0], p, x);
      StaysOut(Step(s, es[0]), es[1..], p, x);
    }
  }

  lemma StillOut(s: State, e: Event, p: SocketId, x: Target)
    requires ClientsOk(s.sockets, s.clients) && p in s.clients && p !in RoomOf(s.rooms, x)
    ensures p in Step(s, e).clients && p !in RoomOf(Step(s, e).rooms, x)
  {
    if p in RoomOf(Step(s, e).rooms, x) {
      InRoomBefore(s, e, p, x);
    }
    assert s.clients.Keys <= Step(s, e).clients.Keys;
  }

  /** A socket that was in the room at a kick, or anywhere else, gets nothing from any later delivery of
      an update of that node, whatever happens in between: only a new socket can be let in again. */
  lemma KickedHearNothing(before: seq<Event>, n: NodeId, after: seq<Event>, p: SocketId, q: nat)
    requires p in Run(EMPTY, before).clients
    requires var t := Run(Step(Run(EMPTY, before), KickRoom(n)), after); q in t.updates && t.updates[q].node == n
    ensures var t := Run(Step(Run(EMPTY, before), KickRoom(n)), after);
            && p in t.clients && (NodeRoom(n) in t.rooms ==> p !in t.rooms[NodeRoom(n)])
            && p in Step(t, Deliver(q)).clients && Step(t, Deliver(q)).clients[p] == t.clients[p]
  {
    EmptyOk();
    RunKeeps(EMPTY, before);
    var s := Run(EMPTY, before);
    RunKeeps(s, [KickRoom(n)]);
    assert Run(s, [KickRoom(n)]) == Step(s, KickRoom(n));
    KickEmptiesRoom(s, n);
    StaysOut(Step(s, KickRoom(n)), after, p, NodeRoom(n));
    var t := Run(Step(s, KickRoom(n)), after);
    if q in t.pending {
      DeliveryReaches(t, q, p);
    }
  }

  // ---------------------------------------------------------------- coming and going

  /** An open socket is let in exactly when its user is below the limit, into the room it asked for only;
      the rooms are the same for all others. */
  lemma AdmitJoins(s: State, p: SocketId, limit: nat)
    requires Inv(s) && p in s.sockets && s.sockets[p].phase == Opening && !s.sockets[p].closed
    ensures var t := Step(s, Admit(p, limit));
            && (forall x :: p in RoomOf(t.rooms, x) <==> x == s.sockets[p].target && |LiveSockets(s.sockets, s.sockets[p].user)| < limit)
            && (forall x, q :: q != p ==> (q in RoomOf(t.rooms, x) <==> q in RoomOf(s.rooms, x)))
  {
    assert OpenCount(s.connections, s.sockets[p].user) == |LiveSockets(s.sockets, s.sockets[p].user)|;
    NotInRooms(s, p);
    RegisterRooms(s.rooms, s.sockets[p].target, p);
  }

  lemma RegisterRooms(rooms: Rooms, t: Target, p: SocketId)
    ensures forall x, q :: q in RoomOf(Register(rooms, t, p), x) <==> q in RoomOf(rooms, x) || (q == p && x == t)
  {
  }

  lemma NotInRooms(s: State, p: SocketId)
    requires RoomsOk(s) && !IsLive(s.sockets, p)
    ensures forall x :: p !in RoomOf(s.rooms, x)
  {
    forall x
      ensures p !in RoomOf(s.rooms, x)
    {
      assert p in RoomOf(s.rooms, x) ==> IsLive(s.sockets, p);
    }
  }

  /** A socket that closes is in no room any more, and nobody else leaves or joins one. */
  lemma GoneLeaves(s: State, p: SocketId)
    requires Inv(s) && p in s.sockets
    ensures var t := Step(s, Gone(p));
            && (forall x :: p !in RoomOf(t.rooms, x))
            && (forall x, q :: q != p ==> (q in RoomOf(t.rooms, x) <==> q in RoomOf(s.rooms, x)))
  {
    forall x
      ensures p in RoomOf(s.rooms, x) ==> s.sockets[p].phase == Live && !s.sockets[p].closed && s.sockets[p].target == x
    {
      assert p in RoomOf(s.rooms, x) ==> IsLive(s.sockets, p);
    }
  }

  /** Neither p closing nor a kick of its room. */
  predicate LeavesAlone(e: Event, p: SocketId, x: Target) {
    e != Gone(p) && !(e.KickRoom? && NodeRoom(e.node) == x)
  }

  lemma StillIn(s: State, e: Event, p: SocketId, x: Target)
    requires Inv(s) && p in RoomOf(s.rooms, x) && LeavesAlone(e, p, x)
    ensures p in RoomOf(Step(s, e).rooms, x)
  {
    match e
    case Gone(q) => if q in s.sockets { GoneLeaves(s, q); }
    case Admit(q, limit) => if q in s.sockets { RegisterRooms(s.rooms, s.sockets[q].target, q); }
    case KickRoom(n) => KickEmptiesRoom(s, n);
    case _ => RoomsUntouched(s, e);
  }

  lemma RoomsUntouched(s: State, e: Event)
    requires !(e.Gone? || e.Admit? || e.KickRoom?)
    ensures Step(s, e).rooms == s.rooms
  {
  }

  lemma {:induction false} StaysIn(s: State, es: seq<Event>, p: SocketId, x: Target)
    requires Inv(s) && p in RoomOf(s.rooms, x) && forall e :: e in es ==> LeavesAlone(e, p, x)
    ensures p in RoomOf(Run(s, es).rooms, x)
    decreases |es|
  {
    if |es| > 0 {
      assert es[0] in es;
      RunKeeps(s, es[..1]);
      assert Run(s, es[..1]) == Step(s, es[0]);
      StillIn(s, es[0], p, x);
      StaysIn(Step(s, es[0]), es[1..], p, x);
    }
  }

  /** Who was let into the room of a node hears every later delivery of others' updates of it, until it
      closes or the room is kicked. */
  lemma LiveHears(before: seq<Event>, after: seq<Event>, p: SocketId, n: NodeId, q: nat)
    requires p in RoomOf(Run(EMPTY, before).rooms, NodeRoom(n)) && forall e :: e in after ==> LeavesAlone(e, p, NodeRoom(n))
    requires var t := Run(Run(EMPTY, before), after); q in t.pending && q in t.updates && t.updates[q].node == n && t.updates[q].sender != p
    ensures var t := Run(Run(EMPTY, before), after);
            && p in t.clients && p in Step(t, Deliver(q)).clients && t.updates[q].ops <= Step(t, Deliver(q)).clients[p].have
            && q in Step(t, Deliver(q)).acked
  {
    EmptyOk();
    RunKeeps(EMPTY, before);
    var s := Run(EMPTY, before);
    StaysIn(s, after, p, NodeRoom(n));
    RunKeeps(s, after);
    var t := Run(s, after);
    assert IsLive(t.sockets, p);
    DeliveryReaches(t, q, p);
  }

  // ---------------------------------------------------------------- reading the log

  /** The same page asked again and again. */
  function Pages(p: SocketId, k: nat): seq<Event> {
    if k == 0 then [] else [Page(p)] + Pages(p, k - 1)
  }

  lemma SkipFirst(log: seq<Row>, n: NodeId, since: nat)
    requires |log| > 0 && (log[0].node != n || log[0].id <= since)
    ensures Backlog(log, n, since) == Backlog(log[1..], n, since)
  {
  }

  lemma TakeFirst(log: seq<Row>, n: NodeId, since: nat)
    requires |log| > 0 && log[0].node == n && log[0].id > since
    ensures Backlog(log, n, since) == [log[0]] + Backlog(log[1..], n, since)
  {
  }

  lemma LaterThanFirst(log: seq<Row>, n: NodeId, since: nat, i: nat)
    requires Increasing(log) && |log| > 0 && i < |Backlog(log[1..], n, since)|
    ensures Backlog(log[1..], n, since)[i].id > log[0].id
  {
    var x := Backlog(log[1..], n, since)[i];
    assert x in Backlog(log[1..], n, since);
    assert x in log[1..];
  }

  lemma ConsSlice(x: Row, rest: seq<Row>, k: nat)
    requires 0 < k <= |rest| + 1
    ensures ([x] + rest)[k..] == rest[k - 1..]
  {
  }

  lemma TailIncreasing(log: seq<Row>)
    requires Increasing(log) && |log| > 0
    ensures Increasing(log[1..])
  {
  }

  lemma FromTaken(log: seq<Row>, n: NodeId, since: nat, k: nat)
    requires Increasing(log) && |log| > 0 && log[0].node == n && log[0].id > since && 1 < k <= |Backlog(log[1..], n, since)| + 1
    requires Backlog(log[1..], n, Backlog(log[1..], n, since)[k - 2].id) == Backlog(log[1..], n, since)[k - 1..]
    ensures k <= |Backlog(log, n, since)| && Backlog(log, n, Backlog(log, n, since)[k - 1].id) == Backlog(log, n, since)[k..]
  {
    var rest := Backlog(log[1..], n, since);
    TakeFirst(log, n, since);
    LaterThanFirst(log, n, since, k - 2);
    SkipFirst(log, n, rest[k - 2].id);
    ConsSlice(log[0], rest, k);
  }

  lemma FromSkipped(log: seq<Row>, n: NodeId, since: nat, k: nat)
    requires Increasing(log) && |log| > 0 && (log[0].node != n || log[0].id <= since) && 0 < k <= |Backlog(log[1..], n, since)|
    requires Backlog(log[1..], n, Backlog(log[1..], n, since)[k - 1].id) == Backlog(log[1..], n, since)[k..]
    ensures k <= |Backlog(log, n, since)| && Backlog(log, n, Backlog(log, n, since)[k - 1].id) == Backlog(log, n, since)[k..]
  {
    SkipFirst(log, n, since);
    LaterThanFirst(log, n, since, k - 1);
    SkipFirst(log, n, Backlog(log[1..], n, since)[k - 1].id);
  }

  lemma {:induction false} BacklogFrom(log: seq<Row>, n: NodeId, since: nat, k: nat)
    requires Increasing(log) && 0 < k <= |Backlog(log, n, since)|
    ensures Backlog(log, n, Backlog(log, n, since)[k - 1].id) == Backlog(log, n, since)[k..]
  {
    TailIncreasing(log);
    if log[0].node != n || log[0].id <= since {
      SkipFirst(log, n, since);
      BacklogFrom(log[1..], n, since, k);
      FromSkipped(log, n, since, k);
    } else {
      TakeFirst(log, n, since);
      if k > 1 {
        BacklogFrom(log[1..], n, since, k - 1);
        FromTaken(log, n, since, k);
      } else {
        SkipFirst(log, n, log[0].id);
        NoneBefore(log[1..], n, since, log[0].id);
        ConsSlice(log[0], Backlog(log[1..], n, since), 1);
      }
    }
  }

  lemma {:induction false} NoneBefore(log: seq<Row>, n: NodeId, since: nat, id: nat)
    requires since <= id && forall r :: r in log ==> r.id > id
    ensures Backlog(log, n, id) == Backlog(log, n, since)
  {
    if |log| > 0 {
      NoneBefore(log[1..], n, since, id);
    }
  }

  lemma PageIsPrefix(log: seq<Row>, n: NodeId, c: Client)
    requires Increasing(log)
    ensures var (page, hasMore) := PageRows(log, n, c.cursor);
            var left := Backlog(log, n, c.cursor);
            && page == left[..|page|] && |page| == (if |left| <= COLLAB_PAGE_SIZE then |left| else COLLAB_PAGE_SIZE)
            && hasMore == (|left| > COLLAB_PAGE_SIZE) && Backlog(log, n, AfterPage(c, page, hasMore).cursor) == left[|page|..]
  {
    var page := PageRows(log, n, c.cursor).0;
    if |page| > 0 {
      BacklogFrom(log, n, c.cursor, |page|);
    }
  }

  /** One page takes the first rows left, up to a full page; it is the last exactly when no more are left. */
  lemma PageTakes(s: State, p: SocketId)
    requires RowsOk(s.log, s.nextSeq) && CanSend(s, p) && Exists(s, p)
    ensures var n, left := s.sockets[p].target.node, Backlog(s.log, s.sockets[p].target.node, s.clients[p].cursor);
            var k := if |left| <= COLLAB_PAGE_SIZE then |left| else COLLAB_PAGE_SIZE;
            var c := Step(s, Page(p)).clients[p];
            && c.have == s.clients[p].have + OpsOf(left[..k]) && Backlog(s.log, n, c.cursor) == left[k..]
            && (c.done <==> s.clients[p].done || |left| <= COLLAB_PAGE_SIZE)
  {
    PageIsPrefix(s.log, s.sockets[p].target.node, s.clients[p]);
  }

  lemma PageOnlyPages(s: State, p: SocketId)
    requires CanSend(s, p) && Exists(s, p)
    ensures var t := Step(s, Page(p)); t.log == s.log && t.nextSeq == s.nextSeq && t.sockets == s.sockets && t.purged == s.purged
    ensures CanSend(Step(s, Page(p)), p) && Exists(Step(s, Page(p)), p)
  {
  }

  lemma RunPages(s: State, p: SocketId, k: nat)
    requires k > 0
    ensures Run(s, Pages(p, k)) == Run(Step(s, Page(p)), Pages(p, k - 1))
  {
    assert Pages(p, k)[1..] == Pages(p, k - 1);
  }

  lemma OpsSplit(rows: seq<Row>, k: nat)
    requires k <= |rows|
    ensures OpsOf(rows) == OpsOf(rows[..k]) + OpsOf(rows[k..])
  {
    assert rows == rows[..k] + rows[k..];
  }

  /** The rows of its node a client has not paged yet. */
  function LeftRows(s: State, p: SocketId): seq<Row>
    requires CanSend(s, p)
  {
    Backlog(s.log, s.sockets[p].target.node, s.clients[p].cursor)
  }

  /** So many pages hold so many rows. */
  predicate PagesHold(k: nat, rows: nat) {
    rows <= k * COLLAB_PAGE_SIZE
  }

  lemma OnePage(s: State, p: SocketId, k: nat) returns (t: State)
    requires RowsOk(s.log, s.nextSeq) && CanSend(s, p) && Exists(s, p) && PagesHold(k, |LeftRows(s, p)|) && k > 0
    ensures Run(s, Pages(p, k)) == Run(t, Pages(p, k - 1))
    ensures RowsOk(t.log, t.nextSeq) && CanSend(t, p) && Exists(t, p) && PagesHold(k - 1, |LeftRows(t, p)|)
    ensures t.clients[p].have + OpsOf(LeftRows(t, p)) == s.clients[p].have + OpsOf(LeftRows(s, p))
    ensures k == 1 ==> t.clients[p].done && LeftRows(t, p) == []
  {
    t := Step(s, Page(p));
    var left := LeftRows(s, p);
    var taken := if |left| <= COLLAB_PAGE_SIZE then |left| else COLLAB_PAGE_SIZE;
    PageTakes(s, p);
    PageOnlyPages(s, p);
    OpsSplit(left, taken);
    RunPages(s, p, k);
  }

  /** With nothing else going on, paging ends after one page for every COLLAB_PAGE_SIZE rows begun, and the
      client then has all of them. */
  lemma {:induction false} PagingEnds(s: State, p: SocketId, k: nat)
    requires RowsOk(s.log, s.nextSeq) && CanSend(s, p) && Exists(s, p) && k > 0
    requires PagesHold(k, |LeftRows(s, p)|)
    ensures p in Run(s, Pages(p, k)).clients && Run(s, Pages(p, k)).clients[p].done
    ensures Run(s, Pages(p, k)).clients[p].have == s.clients[p].have + OpsOf(LeftRows(s, p))
    decreases k
  {
    var t := OnePage(s, p, k);
    if k > 1 {
      PagingEnds(t, p, k - 1);
    } else {
      NothingLeft(t, p);
    }
  }

  lemma NothingLeft(t: State, p: SocketId)
    requires CanSend(t, p) && |LeftRows(t, p)| == 0
    ensures Run(t, Pages(p, 0)) == t && OpsOf(LeftRows(t, p)) == {}
  {
  }

  /** A compacting client that reads rows integrates exactly those it can decrypt, and remembers the last
      row before the first it cannot. */
  lemma {:induction false} ReaderReads(c: Reader, rows: seq<Row>, unreadable: set<nat>, k: nat)
    requires !c.blocked && k <= |rows| && (forall i :: 0 <= i < k ==> rows[i].id !in unreadable)
    requires k < |rows| ==> rows[k].id in unreadable
    ensures var d := Integrate(c, rows, unreadable);
            && d.node == c.node && d.upTo == (if k > 0 then rows[k - 1].id else c.upTo) && d.blocked == (k < |rows|)
            && d.cursor == (if |rows| > 0 then rows[|rows| - 1].id else c.cursor)
            && d.have == c.have + set r, x | r in rows && r.id !in unreadable && x in r.ops :: x
    decreases |rows|
  {
    if |rows| > 0 {
      assert forall r :: r in rows <==> r == rows[0] || r in rows[1..];
      if k == 0 {
        BlockedReads(c.(cursor := rows[0].id, blocked := true), rows[1..], unreadable);
      } else {
        ReaderReads(c.(cursor := rows[0].id, have := c.have + rows[0].ops, upTo := rows[0].id), rows[1..], unreadable, k - 1);
      }
    }
  }

  lemma {:induction false} BlockedReads(c: Reader, rows: seq<Row>, unreadable: set<nat>)
    requires c.blocked
    ensures var d := Integrate(c, rows, unreadable);
            && d.node == c.node && d.upTo == c.upTo && d.blocked
            && d.cursor == (if |rows| > 0 then rows[|rows| - 1].id else c.cursor)
            && d.have == c.have + set r, x | r in rows && r.id !in unreadable && x in r.ops :: x
    decreases |rows|
  {
    if |rows| > 0 {
      assert forall r :: r in rows <==> r == rows[0] || r in rows[1..];
      var next := if rows[0].id in unreadable then c.(cursor := rows[0].id, blocked := true)
                  else c.(cursor := rows[0].id, have := c.have + rows[0].ops);
      BlockedReads(next, rows[1..], unreadable);
    }
  }

  // ---------------------------------------------------------------- one node from another

  /** What an event writes to a node: an update of one of its clients, or a snapshot. */
  function Written(s: State, e: Event, n: NodeId): set<Op> {
    match e
    case Persist(p, ops) => if CanSend(s, p) && Exists(s, p) && s.sockets[p].target == NodeRoom(n) then ops else {}
    case Compact(m, _, snapshot) => if m == n && m !in s.purged then snapshot else {}
    case _ => {}
  }

  function WrittenOver(s: State, es: seq<Event>, n: NodeId): set<Op>
    decreases |es|
  {
    if |es| == 0 then {} else Written(s, es[0], n) + WrittenOver(Step(s, es[0]), es[1..], n)
  }

  /** Neither the log nor the updates nor the clients of n know anything but `ops`. */
  predicate RowsWithin(log: seq<Row>, n: NodeId, ops: set<Op>) {
    forall r | r in log && r.node == n :: r.ops <= ops
  }

  predicate UpdatesWithin(updates: map<nat, Update>, n: NodeId, ops: set<Op>) {
    forall q | q in updates && updates[q].node == n :: updates[q].ops <= ops
  }

  predicate ClientsWithin(sockets: Sockets, clients: map<SocketId, Client>, n: NodeId, ops: set<Op>) {
    forall p | p in clients && p in sockets && sockets[p].target == NodeRoom(n) :: clients[p].have <= ops
  }

  predicate Confined(s: State, n: NodeId, ops: set<Op>) {
    RowsWithin(s.log, n, ops) && UpdatesWithin(s.updates, n, ops) && ClientsWithin(s.sockets, s.clients, n, ops)
  }

  lemma StepConfines(s: State, e: Event, n: NodeId, ops: set<Op>)
    requires Inv(s) && Confined(s, n, ops)
    ensures Confined(Step(s, e), n, ops + Written(s, e, n))
  {
    match e
    case Page(p) => if CanSend(s, p) && Exists(s, p) { PageConfines(s, p, n, ops); }
    case Deliver(q) => if q in s.pending && q in s.updates { DeliverConfines(s, q, n, ops); }
    case Admit(p, limit) => if p in s.sockets { AdmitConfines(s, p, limit, n, ops); }
    case Persist(p, written) => if CanSend(s, p) && Exists(s, p) { PersistConfines(s, p, written, n, ops); }
    case Compact(m, upTo, snapshot) => CompactConfines(s, e, n, ops);
    case Gone(p) => if p in s.sockets { GoneConfines(s, p, n, ops); }
    case _ => QuietConfines(s, e, n, ops);
  }

  lemma QuietConfines(s: State, e: Event, n: NodeId, ops: set<Op>)
    requires ClientsOk(s.sockets, s.clients) && Confined(s, n, ops)
    requires e.Open? || e.Refuse? || e.KickRoom? || e.Read? || e.ReadPage? || e.Purge?
    ensures Confined(Step(s, e), n, ops)
  {
  }

  lemma GoneConfines(s: State, p: SocketId, n: NodeId, ops: set<Op>)
    requires Confined(s, n, ops) && p in s.sockets
    ensures Confined(DoGone(s, p), n, ops)
  {
  }

  lemma CompactConfines(s: State, e: Event, n: NodeId, ops: set<Op>)
    requires Confined(s, n, ops) && e.Compact?
    ensures Confined(Step(s, e), n, ops + Written(s, e, n))
  {
  }

  lemma PersistConfines(s: State, p: SocketId, written: set<Op>, n: NodeId, ops: set<Op>)
    requires Confined(s, n, ops) && CanSend(s, p) && Exists(s, p)
    ensures Confined(Step(s, Persist(p, written)), n, ops + Written(s, Persist(p, written), n))
  {
  }

  lemma AdmitConfines(s: State, p: SocketId, limit: nat, n: NodeId, ops: set<Op>)
    requires Confined(s, n, ops) && p in s.sockets
    ensures Confined(DoAdmit(s, p, limit), n, ops)
  {
  }

  lemma PageConfines(s: State, p: SocketId, n: NodeId, ops: set<Op>)
    requires Confined(s, n, ops) && CanSend(s, p) && Exists(s, p)
    ensures Confined(Step(s, Page(p)), n, ops)
  {
    var page := PageRows(s.log, s.sockets[p].target.node, s.clients[p].cursor).0;
    var all := Backlog(s.log, s.sockets[p].target.node, s.clients[p].cursor);
    assert forall r :: r in page ==> r in all;
  }

  lemma DeliverConfines(s: State, q: nat, n: NodeId, ops: set<Op>)
    requires RoomsOk(s) && Confined(s, n, ops) && q in s.pending && q in s.updates
    ensures Confined(Step(s, Deliver(q)), n, ops)
  {
    forall p | p in s.clients && p in s.sockets && s.sockets[p].target == NodeRoom(n)
      ensures Step(s, Deliver(q)).clients[p].have <= ops
    {
      var t := NodeRoom(s.updates[q].node);
      assert p in RoomOf(s.rooms, t) ==> s.sockets[p].target == t;
      DeliveryReaches(s, q, p);
    }
  }

  lemma {:induction false} RunConfines(s: State, es: seq<Event>, n: NodeId, ops: set<Op>)
    requires Inv(s) && Confined(s, n, ops)
    ensures Confined(Run(s, es), n, ops + WrittenOver(s, es, n))
    decreases |es|
  {
    if |es| > 0 {
      RunKeeps(s, es[..1]);
      assert Run(s, es[..1]) == Step(s, es[0]);
      StepConfines(s, es[0], n, ops);
      RunConfines(Step(s, es[0]), es[1..], n, ops + Written(s, es[0], n));
      assert ops + WrittenOver(s, es, n) == ops + Written(s, es[0], n) + WrittenOver(Step(s, es[0]), es[1..], n);
    }
  }

  /** Over any run, whatever clients do: a client of a node has nothing but what was written to that very
      node, by an update of one of its clients or by a snapshot. */
  lemma NodesAreApart(es: seq<Event>, p: SocketId, n: NodeId)
    requires var s := Run(EMPTY, es); p in s.clients && p in s.sockets && s.sockets[p].target == NodeRoom(n)
    ensures Run(EMPTY, es).clients[p].have <= WrittenOver(EMPTY, es, n)
  {
    EmptyOk();
    RunConfines(EMPTY, es, n, {});
    assert {} + WrittenOver(EMPTY, es, n) == WrittenOver(EMPTY, es, n);
  }
}
