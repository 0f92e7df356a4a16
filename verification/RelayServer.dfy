/**
 The relay as the object it is: maps updated in place by the socket handlers and the two routes.
 Each method is tied to a step of RelayModel, so what is proved of runs holds of its calls.
 */
module RelayServer {
  import opened Prelude
  import opened Forest
  import opened KeyGraph
  import opened RelayModel

  class Relay {
    var sockets: map<SocketId, Socket>
    var rooms: Rooms
    var connectionsByUser: map<UserId, nat>
    var log: seq<Row>
    var nextSeq: nat
    ghost var pending: set<nat>
    ghost var acked: set<nat>
    ghost var compactions: set<(NodeId, nat)>
    var updates: map<nat, Update>
    /** Stands for the browsers at the other end of the sockets. */
    var clients: map<SocketId, Client>
    var readers: map<nat, Reader>
    /** The nodes that are gone; nothing of theirs is inserted or served again. */
    var purged: set<NodeId>

    ghost function Abs(): State
      reads this
    {
      State(sockets, rooms, connectionsByUser, log, nextSeq, pending, updates, acked, compactions, clients, readers, purged)
    }

    constructor ()
      ensures Abs() == EMPTY
    {
      sockets, rooms, connectionsByUser, log, nextSeq := map[], map[], map[], [], 1;
      pending, updates, acked, compactions, clients := {}, map[], {}, {}, map[];
      readers, purged := map[], {};
    }

    /** The end of the admission: the socket may have gone meanwhile, or its user may be at the limit. */
    method Admit(p: SocketId, limit: nat) returns (ready: bool)
      requires p in sockets && sockets[p].phase == Opening
      modifies this
      ensures Abs() == Step(old(Abs()), RelayModel.Admit(p, limit))
      ensures ready <==> !old(sockets[p].closed) && OpenCount(old(connectionsByUser), old(sockets[p].user)) < limit
      ensures ready ==> p in RoomOf(rooms, sockets[p].target) && p in clients
      ensures !ready ==> rooms == old(rooms) && connectionsByUser == old(connectionsByUser)
    {
      var socket := sockets[p];
      if socket.closed {
        return false;
      }
      var open := if socket.user in connectionsByUser then connectionsByUser[socket.user] else 0;
      if open >= limit {
        sockets := sockets[p := socket.(phase := Refused)];
        return false;
      }
      connectionsByUser := connectionsByUser[socket.user := open + 1];
      var room: set<SocketId> := {};
      if socket.target in rooms {
        room := rooms[socket.target];
      }
      rooms := rooms[socket.target := room + {p}];
      sockets := sockets[p := socket.(phase := Live)];
      clients := clients[p := Client(0, false, {})];
      return true;
    }

    /** `close` or `error`, in any number and order: only the first runs the cleanup. */
    method Gone(p: SocketId)
      requires p in sockets
      modifies this
      ensures Abs() == Step(old(Abs()), RelayModel.Gone(p))
      ensures sockets[p].closed && (old(sockets[p].closed) ==> Abs() == old(Abs()))
    {
      var socket := sockets[p];
      if socket.closed {
        return;
      }
      if socket.phase != Live {
        sockets := sockets[p := socket.(closed := true)];
        return;
      }
      sockets := sockets[p := socket.(closed := true, phase := Disposed)];
      Cleanup(p, socket.target, socket.user);
    }

    /** Leave the room, dropping it when empty, and give the connection back. */
    method Cleanup(p: SocketId, target: Target, user: UserId)
      modifies this`rooms, this`connectionsByUser
      ensures rooms == Unregister(old(rooms), target, p)
      ensures connectionsByUser == Decrement(old(connectionsByUser), user)
    {
      if target in rooms {
        var room := rooms[target] - {p};
        if room == {} {
          rooms := rooms - {target};
        } else {
          rooms := rooms[target := room];
        }
      }
      var n := (if user in connectionsByUser then connectionsByUser[user] as int else 1) - 1;
      if n <= 0 {
        connectionsByUser := connectionsByUser - {user};
      } else {
        connectionsByUser := connectionsByUser[user := n];
      }
    }

    /** Every peer is told to close, and the room is dropped at once. */
    method KickRoomLocal(n: NodeId) returns (told: set<SocketId>)
      modifies this
      ensures Abs() == Step(old(Abs()), KickRoom(n))
      ensures told == (if NodeRoom(n) in old(rooms) then old(rooms)[NodeRoom(n)] else {})
      ensures NodeRoom(n) !in rooms
      ensures forall t :: t != NodeRoom(n) ==> (t in rooms <==> t in old(rooms)) && (t in rooms ==> rooms[t] == old(rooms)[t])
    {
      told := {};
      if NodeRoom(n) !in rooms {
        assert rooms - {NodeRoom(n)} == rooms;
        return;
      }
      var left := rooms[NodeRoom(n)];
      while left != {}
        invariant told + left == rooms[NodeRoom(n)]
        invariant rooms == old(rooms) && Abs() == old(Abs())
        decreases left
      {
        var peer :| peer in left;
        told, left := told + {peer}, left - {peer};
      }
      rooms := rooms - {NodeRoom(n)};
    }

    /** The insert, guarded by the node's existence: from here on the update is durable, but nobody has
        heard of it. None is the rejection. */
    method Persist(p: SocketId, ops: set<Op>) returns (id: Option<nat>)
      requires CanSend(Abs(), p)
      modifies this
      ensures Abs() == Step(old(Abs()), RelayModel.Persist(p, ops))
      ensures id == if sockets[p].target.node in purged then None else Some(old(nextSeq))
      ensures log == if id.Some? then old(log) + [Row(id.value, sockets[p].target.node, ops)] else old(log)
    {
      var n := sockets[p].target.node;
      if n in purged {
        return None;
      }
      id := Some(nextSeq);
      log, nextSeq := log + [Row(nextSeq, n, ops)], nextSeq + 1;
      updates, pending := updates[id.value := Update(n, p, ops)], pending + {id.value};
      clients := clients[p := clients[p].(have := clients[p].have + ops)];
    }

    /** The broadcast: one peer of the room after the other, the sender left out. */
    method Broadcast(n: NodeId, from: SocketId, ops: set<Op>)
      modifies this`clients
      ensures clients == map c | c in old(clients) ::
                if c in RoomOf(rooms, NodeRoom(n)) - {from} then old(clients)[c].(have := old(clients)[c].have + ops)
                else old(clients)[c]
    {
      ghost var room := RoomOf(rooms, NodeRoom(n));
      var left := if NodeRoom(n) in rooms then rooms[NodeRoom(n)] else {};
      while left != {}
        invariant left <= room
        invariant clients.Keys == old(clients).Keys
        invariant forall c | c in clients :: clients[c] ==
                    if c in room - {from} - left then old(clients)[c].(have := old(clients)[c].have + ops) else old(clients)[c]
        decreases left
      {
        var peer :| peer in left;
        if peer != from && peer in clients {
          clients := clients[peer := clients[peer].(have := clients[peer].have + ops)];
        }
        left := left - {peer};
      }
    }

    /** What follows the insert: broadcast to the room, then acknowledge to the sender. */
    method Deliver(q: nat)
      requires q in pending && q in updates
      modifies this
      ensures Abs() == Step(old(Abs()), RelayModel.Deliver(q))
      ensures acked == old(acked) + {q} && pending == old(pending) - {q} && log == old(log) && rooms == old(rooms)
      ensures forall c :: c in clients <==> c in old(clients)
      ensures forall c :: c in clients ==>
                clients[c].have == old(clients)[c].have
                  + (if NodeRoom(updates[q].node) in rooms && c in rooms[NodeRoom(updates[q].node)] && c != updates[q].sender
                     then updates[q].ops else {})
    {
      Broadcast(updates[q].node, updates[q].sender, updates[q].ops);
      pending, acked := pending - {q}, acked + {q};
    }

    /** One page of the backlog: a row more than the page is read, to know whether some are left. */
    method PageOf(n: NodeId, since: nat) returns (page: seq<Row>, hasMore: bool)
      ensures (page, hasMore) == PageRows(log, n, since)
      ensures |page| <= COLLAB_PAGE_SIZE && (hasMore ==> |page| == COLLAB_PAGE_SIZE)
    {
      var rows := Backlog(log, n, since);
      page := if |rows| > COLLAB_PAGE_SIZE + 1 then rows[..COLLAB_PAGE_SIZE + 1] else rows;
      hasMore := |page| > COLLAB_PAGE_SIZE;
      if hasMore {
        page := page[..COLLAB_PAGE_SIZE];
        assert page == rows[..COLLAB_PAGE_SIZE];
      }
      assert (page, hasMore) == PageRows(log, n, since);
    }

    /** A client of the room pages the backlog; None when the node is gone. */
    method Page(p: SocketId) returns (r: Option<(seq<Row>, bool)>)
      requires CanSend(Abs(), p)
      modifies this`clients
      ensures Abs() == Step(old(Abs()), RelayModel.Page(p))
      ensures r == if sockets[p].target.node in purged then None
                   else Some(PageRows(log, sockets[p].target.node, old(clients)[p].cursor))
    {
      if sockets[p].target.node in purged {
        return None;
      }
      var page, hasMore := PageOf(sockets[p].target.node, clients[p].cursor);
      clients := clients[p := AfterPage(clients[p], page, hasMore)];
      return Some((page, hasMore));
    }

    /** One transaction: the rows up to `upTo` go, the snapshot comes. Epochs are not looked at. */
    method Compact(n: NodeId, upTo: nat, snapshot: set<Op>) returns (id: Option<nat>)
      modifies this
      ensures Abs() == Step(old(Abs()), RelayModel.Compact(n, upTo, snapshot))
      ensures id == if n in purged then None else Some(old(nextSeq))
      ensures id.Some? ==> Row(id.value, n, snapshot) in log
    {
      if n in purged {
        return None;
      }
      id := Some(nextSeq);
      log, nextSeq := Without(log, n, upTo), nextSeq + 1;
      log := log + [Row(id.value, n, snapshot)];
      compactions := compactions + {(n, upTo)};
    }

    method Read(i: nat, n: NodeId)
      modifies this`readers
      ensures Abs() == Step(old(Abs()), RelayModel.Read(i, n))
    {
      if i !in readers {
        readers := readers[i := Reader(n, 0, {}, 0, false)];
      }
    }

    /** A compacting client's next page: what it can decrypt is integrated, and `upTo` stops before the
        first row it cannot. */
    method ReadPage(i: nat, unreadable: set<nat>)
      modifies this`readers
      ensures Abs() == Step(old(Abs()), RelayModel.ReadPage(i, unreadable))
    {
      if i !in readers || readers[i].node in purged {
        return;
      }
      var c := readers[i];
      var page, _ := PageOf(c.node, c.cursor);
      ghost var first := c;
      var k := 0;
      while k < |page|
        invariant k <= |page| && Integrate(c, page[k..], unreadable) == Integrate(first, page, unreadable)
      {
        assert page[k..][1..] == page[k + 1..];
        if page[k].id in unreadable {
          c := c.(cursor := page[k].id, blocked := true);
        } else {
          c := c.(cursor := page[k].id, have := c.have + page[k].ops, upTo := if c.blocked then c.upTo else page[k].id);
        }
        k := k + 1;
      }
      readers := readers[i := c];
    }

    /** ON DELETE CASCADE. */
    method Purge(n: NodeId)
      modifies this
      ensures Abs() == Step(old(Abs()), RelayModel.Purge(n))
    {
      log := Without(log, n, nextSeq);
      purged := purged + {n};
    }
  }
}
