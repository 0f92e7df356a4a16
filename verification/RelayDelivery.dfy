/**
 What the relay guarantees about updates, under every interleaving: an acknowledged update is never
 lost, compaction keeps the meaning of the log, and a client that registered in the room, paged the
 backlog to its end and stayed connected has every update of its peers.
 */
module RelayDelivery {
  import opened Prelude
  import opened Forest
  import opened KeyGraph
  import opened RelayModel

  predicate Increasing(rows: seq<Row>) {
    forall i, j | 0 <= i < j < |rows| :: rows[i].id < rows[j].id
  }

  lemma {:induction false} BacklogIncreasing(log: seq<Row>, n: NodeId, since: nat)
    requires Increasing(log)
    ensures Increasing(Backlog(log, n, since))
  {
    if |log| > 0 {
      BacklogIncreasing(log[1..], n, since);
      var rest := Backlog(log[1..], n, since);
      forall j | 0 <= j < |rest|
        ensures log[0].id < rest[j].id
      {
        assert rest[j] in rest;
      }
    }
  }

  lemma {:induction false} WithoutIncreasing(log: seq<Row>, n: NodeId, upTo: nat)
    requires Increasing(log)
    ensures Increasing(Without(log, n, upTo))
  {
    if |log| > 0 {
      WithoutIncreasing(log[1..], n, upTo);
      var rest := Without(log[1..], n, upTo);
      forall j | 0 <= j < |rest|
        ensures log[0].id < rest[j].id
      {
        assert rest[j] in rest;
      }
    }
  }

  // ---------------------------------------------------------------- invariants

  /** Ids are allocated in order and nothing speaks of an id not yet allocated. */
  predicate LogOk(s: State) {
    && RowsOk(s.log, s.nextSeq) && NamesOk(s.updates, s.clients, s.nextSeq)
    && s.pending <= s.updates.Keys && s.acked <= s.updates.Keys
  }

  /** The update is still a row, or a compaction that reached its id replaced it. */
  predicate Kept(s: State, q: nat)
    requires q in s.updates
  {
    var u := s.updates[q];
    Row(q, u.node, u.ops) in s.log || exists c | c in s.compactions :: c.0 == u.node && c.1 >= q
  }

  predicate Durable(s: State) {
    forall q | q in s.updates :: s.updates[q].node in s.purged || Kept(s, q)
  }

  /** Nothing is left of a purged node, and nothing of it comes back. */
  predicate GoneOk(log: seq<Row>, purged: set<NodeId>) {
    forall r | r in log :: r.node !in purged
  }

  /** No operation of an update ever leaves the document of a node that exists. */
  predicate Meant(s: State) {
    forall q | q in s.updates :: s.updates[q].node in s.purged || s.updates[q].ops <= Doc(s.log, s.updates[q].node)
  }

  /** What p has, plus what its next pages will bring. */
  function Reach(s: State, p: SocketId, n: NodeId): set<Op>
    requires p in s.clients
  {
    var c := s.clients[p];
    c.have + if c.done then {} else OpsOf(Backlog(s.log, n, c.cursor))
  }

  /** p is in the room of the update's node and the update has been broadcast (or is p's own). */
  predicate Concerned(s: State, p: SocketId, q: nat)
    requires q in s.updates
  {
    p in s.clients && (s.updates[q].sender == p || (p in RoomOf(s.rooms, NodeRoom(s.updates[q].node)) && q !in s.pending))
  }

  /** The update is within p's reach, unless the node went before p had paged to the end. */
  predicate Within(s: State, p: SocketId, q: nat)
    requires p in s.clients && q in s.updates
  {
    (s.updates[q].node in s.purged && !s.clients[p].done) || s.updates[q].ops <= Reach(s, p, s.updates[q].node)
  }

  predicate Covered(s: State) {
    forall p, q | p in s.clients && q in s.updates && Concerned(s, p, q) ::
      && Within(s, p, q)
      && (s.updates[q].sender == p ==> s.updates[q].ops <= s.clients[p].have)
  }

  // ---------------------------------------------------------------- log and durability

  predicate RowsOk(log: seq<Row>, nextSeq: nat) {
    && nextSeq > 0 && Increasing(log) && (forall r | r in log :: 0 < r.id < nextSeq)
  }

  predicate NamesOk(updates: map<nat, Update>, clients: map<SocketId, Client>, nextSeq: nat) {
    && (forall q | q in updates :: q < nextSeq && updates[q].sender in clients)
    && (forall c | c in clients :: clients[c].cursor < nextSeq)
  }

  lemma AppendKeepsRows(log: seq<Row>, nextSeq: nat, r: Row)
    requires RowsOk(log, nextSeq) && r.id == nextSeq
    ensures RowsOk(log + [r], nextSeq + 1)
  {
    forall i | 0 <= i < |log|
      ensures log[i].id < r.id
    {
      assert log[i] in log;
    }
  }

  lemma StepKeepsRows(s: State, e: Event)
    requires RowsOk(s.log, s.nextSeq)
    ensures RowsOk(Step(s, e).log, Step(s, e).nextSeq)
  {
    match e
    case Compact(n, upTo, snapshot) =>
      WithoutIncreasing(s.log, n, upTo);
      AppendKeepsRows(Without(s.log, n, upTo), s.nextSeq, Row(s.nextSeq, n, snapshot));
    case Persist(p, ops) => if CanSend(s, p) { AppendKeepsRows(s.log, s.nextSeq, Row(s.nextSeq, s.sockets[p].target.node, ops)); }
    case Purge(n) => WithoutIncreasing(s.log, n, s.nextSeq);
    case _ => assert Step(s, e).log == s.log && Step(s, e).nextSeq == s.nextSeq;
  }

  lemma PageInLog(log: seq<Row>, n: NodeId, cursor: nat)
    ensures forall r :: r in PageRows(log, n, cursor).0 ==> r in log
  {
    var all, page := Backlog(log, n, cursor), PageRows(log, n, cursor).0;
    assert forall r :: r in page ==> r in all;
  }

  lemma PageKeepsNames(s: State, p: SocketId)
    requires RowsOk(s.log, s.nextSeq) && NamesOk(s.updates, s.clients, s.nextSeq) && CanSend(s, p) && Exists(s, p)
    ensures NamesOk(s.updates, Step(s, Page(p)).clients, s.nextSeq)
  {
    var page := PageRows(s.log, s.sockets[p].target.node, s.clients[p].cursor).0;
    PageInLog(s.log, s.sockets[p].target.node, s.clients[p].cursor);
    if |page| > 0 {
      assert page[|page| - 1] in page;
    }
  }

  lemma StepKeepsNames(s: State, e: Event)
    requires RowsOk(s.log, s.nextSeq) && NamesOk(s.updates, s.clients, s.nextSeq)
    ensures NamesOk(Step(s, e).updates, Step(s, e).clients, Step(s, e).nextSeq)
  {
    if e.Page? && CanSend(s, e.socket) && Exists(s, e.socket) {
      PageKeepsNames(s, e.socket);
    }
  }

  lemma StepKeepsLog(s: State, e: Event)
    requires LogOk(s)
    ensures LogOk(Step(s, e))
  {
    StepKeepsRows(s, e);
    StepKeepsNames(s, e);
  }

  lemma UpdatesStay(s: State, e: Event)
    requires LogOk(s)
    ensures forall q :: q in s.updates ==> q in Step(s, e).updates && Step(s, e).updates[q] == s.updates[q]
    ensures s.compactions <= Step(s, e).compactions
  {
  }

  lemma UpdateKept(s: State, e: Event, q: nat)
    requires LogOk(s) && q in s.updates && s.updates[q].node !in Step(s, e).purged && Kept(s, q)
    requires q in Step(s, e).updates && Step(s, e).updates[q] == s.updates[q] && s.compactions <= Step(s, e).compactions
    ensures Kept(Step(s, e), q)
  {
    var t, u := Step(s, e), s.updates[q];
    if Row(q, u.node, u.ops) in s.log {
      if e.Compact? && e.node !in s.purged {
        assert (e.node, e.upTo) in t.compactions;
        assert (u.node == e.node && q <= e.upTo) || Row(q, u.node, u.ops) in Without(s.log, e.node, e.upTo);
      }
    } else {
      var c :| c in s.compactions && c.0 == u.node && c.1 >= q;
      assert c in t.compactions;
    }
  }

  lemma StepKeepsDurable(s: State, e: Event)
    requires LogOk(s) && Durable(s)
    ensures Durable(Step(s, e))
    ensures forall q :: q in s.updates ==> q in Step(s, e).updates && Step(s, e).updates[q] == s.updates[q]
  {
    var t := Step(s, e);
    UpdatesStay(s, e);
    PurgedStays(s, e);
    forall q | q in t.updates && t.updates[q].node !in t.purged
      ensures Kept(t, q)
    {
      if q in s.updates {
        UpdateKept(s, e, q);
      }
    }
  }

  lemma StepKeepsGone(s: State, e: Event)
    requires RowsOk(s.log, s.nextSeq) && GoneOk(s.log, s.purged)
    ensures GoneOk(Step(s, e).log, Step(s, e).purged) && s.purged <= Step(s, e).purged
  {
  }

  // ---------------------------------------------------------------- compaction and meaning

  /** Rows of n up to an id, the rows a compaction replaces. */
  function Replaced(log: seq<Row>, n: NodeId, upTo: nat): set<Op> {
    set r, x | r in log && r.node == n && r.id <= upTo && x in r.ops :: x
  }

  lemma CompactedDoc(s: State, n: NodeId, upTo: nat, snapshot: set<Op>)
    ensures Doc(DoCompact(s, n, upTo, snapshot).log, n) == OpsOf(Backlog(s.log, n, upTo)) + snapshot
    ensures forall m :: m != n ==> Doc(DoCompact(s, n, upTo, snapshot).log, m) == Doc(s.log, m)
    ensures Doc(s.log, n) == OpsOf(Backlog(s.log, n, upTo)) + Replaced(s.log, n, upTo)
  {
    var log, log' := s.log, DoCompact(s, n, upTo, snapshot).log;
    forall r
      ensures r in log' <==> (r in log && !(r.node == n && r.id <= upTo)) || r == Row(s.nextSeq, n, snapshot)
    {
    }
    assert Row(s.nextSeq, n, snapshot) in log';
  }

  /** A compaction leaves the document of every node unchanged exactly when its snapshot adds nothing
      and brings back whatever only the replaced rows held; the merge of those rows does. */
  lemma CompactionPreservesMeaning(s: State, n: NodeId, upTo: nat, snapshot: set<Op>)
    ensures (forall m :: Doc(DoCompact(s, n, upTo, snapshot).log, m) == Doc(s.log, m))
       <==> snapshot <= Doc(s.log, n) && Replaced(s.log, n, upTo) <= snapshot + OpsOf(Backlog(s.log, n, upTo))
    ensures snapshot == Replaced(s.log, n, upTo) ==> forall m :: Doc(DoCompact(s, n, upTo, snapshot).log, m) == Doc(s.log, m)
  {
    CompactedDoc(s, n, upTo, snapshot);
    forall m
      ensures Doc(DoCompact(s, n, upTo, snapshot).log, m) == Doc(s.log, m)
         <==> m != n || Doc(DoCompact(s, n, upTo, snapshot).log, n) == Doc(s.log, n)
    {
    }
  }

  lemma StepGrowsDoc(s: State, e: Event, n: NodeId)
    requires Honest(s, e) && n !in Step(s, e).purged
    ensures Doc(s.log, n) <= Doc(Step(s, e).log, n)
  {
    if e.Compact? && e.node !in s.purged {
      CompactedDoc(s, e.node, e.upTo, e.snapshot);
      assert Replaced(s.log, e.node, e.upTo) <= e.snapshot;
    } else {
      assert forall r :: r in s.log && r.node == n ==> r in Step(s, e).log;
    }
  }

  lemma UpdateMeant(s: State, e: Event, q: nat)
    requires LogOk(s) && Meant(s) && Honest(s, e) && q in Step(s, e).updates && Step(s, e).updates[q].node !in Step(s, e).purged
    ensures Step(s, e).updates[q].ops <= Doc(Step(s, e).log, Step(s, e).updates[q].node)
  {
    var t := Step(s, e);
    PurgedStays(s, e);
    if q in s.updates {
      StepGrowsDoc(s, e, s.updates[q].node);
    } else {
      assert Row(q, t.updates[q].node, t.updates[q].ops) in t.log;
    }
  }

  lemma StepKeepsMeant(s: State, e: Event)
    requires LogOk(s) && Meant(s) && Honest(s, e)
    ensures Meant(Step(s, e))
  {
    var t := Step(s, e);
    forall q | q in t.updates && t.updates[q].node !in t.purged
      ensures t.updates[q].ops <= Doc(t.log, t.updates[q].node)
    {
      UpdateMeant(s, e, q);
    }
  }

  // ---------------------------------------------------------------- coverage

  /** What later pages will bring only grows, whatever happens to the log, while the node exists. */
  lemma StepGrowsBacklog(s: State, e: Event, n: NodeId, cursor: nat)
    requires LogOk(s) && Honest(s, e) && cursor < s.nextSeq && n !in Step(s, e).purged
    ensures OpsOf(Backlog(s.log, n, cursor)) <= OpsOf(Backlog(Step(s, e).log, n, cursor))
  {
    var t := Step(s, e);
    forall r, x | r in Backlog(s.log, n, cursor) && x in r.ops
      ensures x in OpsOf(Backlog(t.log, n, cursor))
    {
      if r in t.log {
        assert r in Backlog(t.log, n, cursor);
      } else {
        assert e.Compact?;
        assert Row(s.nextSeq, n, e.snapshot) in Backlog(t.log, n, cursor);
      }
    }
  }

  /** A page and what is left after it make up what was left before it. */
  lemma PageSplits(log: seq<Row>, n: NodeId, c: Client)
    requires Increasing(log)
    ensures var (page, hasMore) := PageRows(log, n, c.cursor);
            var c' := AfterPage(c, page, hasMore);
            && OpsOf(Backlog(log, n, c.cursor)) <= c'.have + OpsOf(Backlog(log, n, c'.cursor))
            && (!hasMore ==> OpsOf(Backlog(log, n, c.cursor)) <= c'.have)
  {
    var rows := Backlog(log, n, c.cursor);
    var (page, hasMore) := PageRows(log, n, c.cursor);
    var c' := AfterPage(c, page, hasMore);
    BacklogIncreasing(log, n, c.cursor);
    forall r | r in rows
      ensures r in page || (hasMore && r in Backlog(log, n, c'.cursor))
    {
      var i :| 0 <= i < |rows| && rows[i] == r;
      if i < |page| {
        assert page[i] == r;
      } else {
        assert page[|page| - 1] == rows[|page| - 1];
        assert r.id > page[|page| - 1].id;
      }
    }
  }

  /** Nothing but the delivery of q, or the admission of p, makes p newly concerned by q. */
  lemma ConcernedBefore(s: State, e: Event, p: SocketId, q: nat)
    requires LogOk(s) && RoomsOk(s) && p in s.clients && q in s.updates && e != Deliver(q)
    requires q in Step(s, e).updates && Concerned(Step(s, e), p, q)
    ensures Step(s, e).updates[q] == s.updates[q] && Concerned(s, p, q)
  {
    UpdatesStay(s, e);
    if s.updates[q].sender != p {
      InRoomBefore(s, e, p, NodeRoom(s.updates[q].node));
      DeliveredBefore(s, e, q);
    }
  }

  lemma InRoomBefore(s: State, e: Event, p: SocketId, t: Target)
    requires ClientsOk(s.sockets, s.clients) && p in s.clients && p in RoomOf(Step(s, e).rooms, t)
    ensures p in RoomOf(s.rooms, t)
  {
  }

  lemma DeliveredBefore(s: State, e: Event, q: nat)
    requires q !in Step(s, e).pending && e != Deliver(q)
    ensures q !in s.pending
  {
  }

  lemma ClientKeeps(s: State, e: Event, p: SocketId)
    requires ClientsOk(s.sockets, s.clients) && p in s.clients && e != Page(p)
    ensures p in Step(s, e).clients && Step(s, e).clients[p].cursor == s.clients[p].cursor
    ensures Step(s, e).clients[p].done == s.clients[p].done && s.clients[p].have <= Step(s, e).clients[p].have
  {
  }

  /** In a step that is not a page of p's own, p keeps its place and loses nothing. */
  lemma QuietCovers(s: State, e: Event, p: SocketId, q: nat)
    requires LogOk(s) && RoomsOk(s) && Honest(s, e) && p in s.clients && q in s.updates && e != Page(p)
    requires Within(s, p, q) && q in Step(s, e).updates && Step(s, e).updates[q] == s.updates[q]
    ensures p in Step(s, e).clients && Within(Step(s, e), p, q) && s.clients[p].have <= Step(s, e).clients[p].have
  {
    ClientKeeps(s, e, p);
    PurgedStays(s, e);
    if s.updates[q].node !in Step(s, e).purged {
      StepGrowsBacklog(s, e, s.updates[q].node, s.clients[p].cursor);
    }
  }

  lemma PurgedStays(s: State, e: Event)
    ensures s.purged <= Step(s, e).purged
  {
  }

  /** Whoever is concerned by an update of someone else's sits in the room of that node. */
  lemma ConcernedHere(s: State, p: SocketId, q: nat)
    requires RoomsOk(s) && q in s.updates && Concerned(s, p, q) && s.updates[q].sender != p
    ensures p in s.sockets && s.sockets[p].target == NodeRoom(s.updates[q].node) && s.sockets[p].phase == Live
  {
    assert IsLive(s.sockets, p);
  }

  /** Paging one's own node: what is left plus what was had covers what it did before. */
  lemma OwnPage(s: State, p: SocketId)
    requires Increasing(s.log) && CanSend(s, p) && Exists(s, p)
    ensures p in Step(s, Page(p)).clients && s.clients[p].have <= Step(s, Page(p)).clients[p].have
    ensures Reach(s, p, s.sockets[p].target.node) <= Reach(Step(s, Page(p)), p, s.sockets[p].target.node)
  {
    PageSplits(s.log, s.sockets[p].target.node, s.clients[p]);
  }

  lemma PageCovers(s: State, p: SocketId, q: nat)
    requires LogOk(s) && RoomsOk(s) && Covered(s) && q in s.updates && Concerned(s, p, q)
    ensures p in Step(s, Page(p)).clients && Within(Step(s, Page(p)), p, q)
    ensures s.updates[q].sender == p ==> s.updates[q].ops <= Step(s, Page(p)).clients[p].have
  {
    assert Within(s, p, q);
    if CanSend(s, p) && Exists(s, p) {
      OwnPage(s, p);
    }
    if s.updates[q].sender != p {
      ConcernedHere(s, p, q);
    }
  }

  /** A new client has paged nothing, and its pages will hold the whole document. */
  lemma NewClientCovers(s: State, e: Event, p: SocketId, q: nat)
    requires LogOk(s) && RoomsOk(s) && Meant(s) && p !in s.clients && q in s.updates
    requires p in Step(s, e).clients
    ensures Step(s, e).updates == s.updates && s.updates[q].sender != p && Within(Step(s, e), p, q)
  {
    var n := s.updates[q].node;
    assert Step(s, e).clients[p] == Client(0, false, {}) && Step(s, e).log == s.log && Step(s, e).purged == s.purged;
    forall r, x | r in s.log && r.node == n && x in r.ops
      ensures x in OpsOf(Backlog(s.log, n, 0))
    {
      assert r in Backlog(s.log, n, 0);
    }
  }

  /** An update just persisted concerns its sender only, who has it. */
  lemma NewUpdateCovers(s: State, e: Event, p: SocketId, q: nat)
    requires LogOk(s) && q !in s.updates && q in Step(s, e).updates
    requires p in Step(s, e).clients && Concerned(Step(s, e), p, q)
    ensures Step(s, e).updates[q].sender == p && Step(s, e).updates[q].ops <= Step(s, e).clients[p].have
  {
  }

  lemma DeliverCovers(s: State, p: SocketId, q: nat)
    requires LogOk(s) && RoomsOk(s) && Covered(s) && p in s.clients && q in s.updates
    requires p in Step(s, Deliver(q)).clients && Concerned(Step(s, Deliver(q)), p, q)
    ensures Step(s, Deliver(q)).updates == s.updates
    ensures Within(Step(s, Deliver(q)), p, q)
    ensures s.updates[q].sender == p ==> s.updates[q].ops <= Step(s, Deliver(q)).clients[p].have
  {
    if Concerned(s, p, q) {
      QuietCovers(s, Deliver(q), p, q);
    }
  }

  lemma StepCoversOne(s: State, e: Event, p: SocketId, q: nat)
    requires LogOk(s) && RoomsOk(s) && Meant(s) && Covered(s) && Honest(s, e)
    requires q in Step(s, e).updates && p in Step(s, e).clients && Concerned(Step(s, e), p, q)
    ensures Within(Step(s, e), p, q)
    ensures Step(s, e).updates[q].sender == p ==> Step(s, e).updates[q].ops <= Step(s, e).clients[p].have
  {
    if q !in s.updates {
      NewUpdateCovers(s, e, p, q);
    } else if p !in s.clients {
      NewClientCovers(s, e, p, q);
    } else if e == Deliver(q) {
      DeliverCovers(s, p, q);
    } else {
      ConcernedBefore(s, e, p, q);
      if e == Page(p) {
        PageCovers(s, p, q);
      } else {
        QuietCovers(s, e, p, q);
      }
    }
  }

  lemma StepKeepsCovered(s: State, e: Event)
    requires LogOk(s) && RoomsOk(s) && Meant(s) && Covered(s) && Honest(s, e)
    ensures Covered(Step(s, e))
  {
    forall p, q | p in Step(s, e).clients && q in Step(s, e).updates && Concerned(Step(s, e), p, q)
      ensures Within(Step(s, e), p, q)
      ensures Step(s, e).updates[q].sender == p ==> Step(s, e).updates[q].ops <= Step(s, e).clients[p].have
    {
      StepCoversOne(s, e, p, q);
    }
  }

  // ---------------------------------------------------------------- over whole runs

  /** What holds in every state any clients can reach, honest or not. */
  ghost predicate Inv(s: State) {
    CountsOk(s.sockets, s.connections) && RoomsOk(s) && LogOk(s) && Durable(s) && GoneOk(s.log, s.purged)
  }

  lemma EmptyOk()
    ensures Inv(EMPTY) && Meant(EMPTY) && Covered(EMPTY)
  {
    forall u
      ensures OpenCount(EMPTY.connections, u) == |LiveSockets(EMPTY.sockets, u)|
    {
      assert LiveSockets(EMPTY.sockets, u) == {};
    }
  }

  lemma {:induction false} RunKeeps(s: State, es: seq<Event>)
    requires Inv(s)
    ensures Inv(Run(s, es))
    decreases |es|
  {
    if |es| > 0 {
      StepKeepsCounts(s, es[0]);
      StepKeepsRooms(s, es[0]);
      StepKeepsLog(s, es[0]);
      StepKeepsDurable(s, es[0]);
      StepKeepsGone(s, es[0]);
      RunKeeps(Step(s, es[0]), es[1..]);
    }
  }

  lemma {:induction false} HonestRunKeeps(s: State, es: seq<Event>)
    requires Inv(s) && Meant(s) && Covered(s) && HonestRun(s, es)
    ensures Inv(Run(s, es)) && Meant(Run(s, es)) && Covered(Run(s, es))
    ensures s.purged <= Run(s, es).purged
    ensures forall n :: n !in Run(s, es).purged ==> Doc(s.log, n) <= Doc(Run(s, es).log, n)
    decreases |es|
  {
    if |es| > 0 {
      var t := Step(s, es[0]);
      StepKeepsCounts(s, es[0]);
      StepKeepsRooms(s, es[0]);
      StepKeepsLog(s, es[0]);
      StepKeepsDurable(s, es[0]);
      StepKeepsGone(s, es[0]);
      StepKeepsMeant(s, es[0]);
      StepKeepsCovered(s, es[0]);
      HonestRunKeeps(t, es[1..]);
      forall n | n !in Run(s, es).purged
        ensures Doc(s.log, n) <= Doc(Run(s, es).log, n)
      {
        StepGrowsDoc(s, es[0], n);
        assert Doc(t.log, n) <= Doc(Run(t, es[1..]).log, n);
      }
    }
  }

  lemma {:induction false} AckedStays(s: State, es: seq<Event>, q: nat)
    requires LogOk(s) && q in s.acked
    ensures q in Run(s, es).acked && q in Run(s, es).updates && Run(s, es).updates[q] == s.updates[q]
    decreases |es|
  {
    if |es| > 0 {
      StepKeepsLog(s, es[0]);
      AckedStays(Step(s, es[0]), es[1..], q);
    }
  }

  /** An acknowledged update is durable: after any further steps it is still a row of the log, or a
      compaction that reached its id replaced it, or its node was purged. With honest compactions its
      operations are in the document exactly as long as the node is not purged; after that nothing is. */
  lemma AckedIsDurable(before: seq<Event>, after: seq<Event>, q: nat)
    requires q in Run(EMPTY, before).acked
    ensures var s, t := Run(EMPTY, before), Run(Run(EMPTY, before), after);
            && q in s.updates && q in t.updates && t.updates[q] == s.updates[q]
            && var n := s.updates[q].node;
               && (n !in t.purged ==> Kept(t, q))
               && (n in t.purged ==> Doc(t.log, n) == {})
               && (HonestRun(EMPTY, before) && HonestRun(s, after) ==>
                     (s.updates[q].ops <= Doc(t.log, n) <==> n !in t.purged || s.updates[q].ops == {}))
  {
    EmptyOk();
    RunKeeps(EMPTY, before);
    var s := Run(EMPTY, before);
    RunKeeps(s, after);
    AckedStays(s, after, q);
    if HonestRun(EMPTY, before) && HonestRun(s, after) {
      HonestRunKeeps(EMPTY, before);
      HonestRunKeeps(s, after);
    }
  }

  /** Join coverage: whatever the interleaving of inserts, broadcasts, joins, pages, compactions and
      disconnections, a client that sits in the room of a node and has paged the backlog to its end has
      integrated every update of that node that was broadcast; and every one it sent itself. */
  lemma JoinCoverage(es: seq<Event>, p: SocketId, q: nat)
    requires HonestRun(EMPTY, es)
    requires var s := Run(EMPTY, es);
             q in s.updates && p in s.clients && s.clients[p].done && p in RoomOf(s.rooms, NodeRoom(s.updates[q].node))
    ensures q !in Run(EMPTY, es).pending || Run(EMPTY, es).updates[q].sender == p
            ==> Run(EMPTY, es).updates[q].ops <= Run(EMPTY, es).clients[p].have
  {
    EmptyOk();
    HonestRunKeeps(EMPTY, es);
    var s := Run(EMPTY, es);
    if q !in s.pending || s.updates[q].sender == p {
      assert Concerned(s, p, q);
    }
  }

  /** Over any run: the counter of a user is the number of its admitted, undisposed sockets, and when
      every socket has closed no counter and no room is left. */
  lemma CountersExact(es: seq<Event>, u: UserId)
    ensures OpenCount(Run(EMPTY, es).connections, u) == |LiveSockets(Run(EMPTY, es).sockets, u)|
    ensures (forall p :: p in Run(EMPTY, es).sockets ==> Run(EMPTY, es).sockets[p].closed)
            ==> Run(EMPTY, es).connections == map[] && Run(EMPTY, es).rooms == map[]
  {
    EmptyOk();
    RunKeeps(EMPTY, es);
    var s := Run(EMPTY, es);
    if forall p :: p in s.sockets ==> s.sockets[p].closed {
      NoLeak(s);
    }
  }

  /** Over any run that always admits under one limit, no user ever has more admitted sockets than that. */
  lemma {:induction false} LimitOverRuns(s: State, es: seq<Event>, limit: nat, u: UserId)
    requires Inv(s) && forall e :: e in es && e.Admit? ==> e.limit == limit
    requires forall v :: |LiveSockets(s.sockets, v)| <= limit
    ensures |LiveSockets(Run(s, es).sockets, u)| <= limit
    decreases |es|
  {
    if |es| > 0 {
      assert es[0] in es;
      LimitHolds(s, es[0], limit);
      StepKeepsCounts(s, es[0]);
      StepKeepsRooms(s, es[0]);
      StepKeepsLog(s, es[0]);
      StepKeepsDurable(s, es[0]);
      StepKeepsGone(s, es[0]);
      LimitOverRuns(Step(s, es[0]), es[1..], limit, u);
    }
  }

  // ---------------------------------------------------------------- honest by protocol

  /** What a compacting client remembers of its reading: it has every row up to `upTo`, and every row it
      has read as long as it could decrypt them all. */
  predicate ReadOk(log: seq<Row>, nextSeq: nat, c: Reader) {
    && c.upTo <= c.cursor < nextSeq
    && (forall r | r in log :: r.node == c.node && r.id <= c.upTo ==> r.ops <= c.have)
    && (!c.blocked ==> forall r | r in log :: r.node == c.node && r.id <= c.cursor ==> r.ops <= c.have)
  }

  predicate ReadersOk(s: State) {
    forall i | i in s.readers :: ReadOk(s.log, s.nextSeq, s.readers[i])
  }

  /** `rows` are the rows of the node that follow a cursor, as far as they go. */
  predicate FollowOn(log: seq<Row>, n: NodeId, cursor: nat, rows: seq<Row>) {
    && Increasing(rows) && (forall r | r in rows :: r in log && r.node == n && r.id > cursor)
    && (|rows| > 0 ==> forall r | r in log :: r.node == n && cursor < r.id <= rows[|rows| - 1].id ==> r in rows)
  }

  lemma PageFollowsOn(log: seq<Row>, n: NodeId, cursor: nat)
    requires Increasing(log)
    ensures FollowOn(log, n, cursor, PageRows(log, n, cursor).0)
  {
    var all, page := Backlog(log, n, cursor), PageRows(log, n, cursor).0;
    BacklogIncreasing(log, n, cursor);
    forall r | r in page
      ensures r in all
    {
    }
    if |page| > 0 {
      forall r | r in log && r.node == n && cursor < r.id <= page[|page| - 1].id
        ensures r in page
      {
        assert r in all;
        var i :| 0 <= i < |all| && all[i] == r;
        assert all[|page| - 1] == page[|page| - 1];
        assert i < |page|;
        assert page[i] == r;
      }
    }
  }

  lemma {:induction false} IntegrateKeeps(log: seq<Row>, nextSeq: nat, c: Reader, rows: seq<Row>, unreadable: set<nat>)
    requires ReadOk(log, nextSeq, c) && FollowOn(log, c.node, c.cursor, rows) && (forall r :: r in log ==> r.id < nextSeq)
    ensures ReadOk(log, nextSeq, Integrate(c, rows, unreadable))
    decreases |rows|
  {
    if |rows| > 0 {
      var r0 := rows[0];
      var next := if r0.id in unreadable then c.(cursor := r0.id, blocked := true)
                  else c.(cursor := r0.id, have := c.have + r0.ops, upTo := if c.blocked then c.upTo else r0.id);
      assert r0 in rows;
      OneRowOn(log, c, rows);
      IntegrateKeeps(log, nextSeq, next, rows[1..], unreadable);
    }
  }

  /** The first of the rows that follow is the only one up to its id, and the others follow it. */
  lemma OneRowOn(log: seq<Row>, c: Reader, rows: seq<Row>)
    requires |rows| > 0 && FollowOn(log, c.node, c.cursor, rows)
    ensures forall r :: r in log && r.node == c.node && c.cursor < r.id <= rows[0].id ==> r == rows[0]
    ensures FollowOn(log, c.node, rows[0].id, rows[1..])
  {
    var last := rows[|rows| - 1];
    assert rows[0].id <= last.id;
    forall r | r in log && r.node == c.node && c.cursor < r.id <= rows[0].id
      ensures r == rows[0]
    {
      assert r in rows;
      var i :| 0 <= i < |rows| && rows[i] == r;
      assert forall j :: 0 < j < |rows| ==> rows[0].id < rows[j].id;
    }
    forall r | r in rows[1..]
      ensures r in rows && r.id > rows[0].id
    {
    }
    if |rows| > 1 {
      forall r | r in log && r.node == c.node && rows[0].id < r.id <= last.id
        ensures r in rows[1..]
      {
        assert r in rows && r != rows[0];
      }
    }
  }

  lemma ReadPageKeeps(s: State, i: nat, unreadable: set<nat>)
    requires RowsOk(s.log, s.nextSeq) && ReadersOk(s) && i in s.readers
    ensures ReadersOk(DoReadPage(s, i, unreadable))
  {
    var c := s.readers[i];
    PageFollowsOn(s.log, c.node, c.cursor);
    IntegrateKeeps(s.log, s.nextSeq, c, PageRows(s.log, c.node, c.cursor).0, unreadable);
  }

  /** Rows that come later have later ids, and those that go are missed by nobody. */
  lemma LogKeepsRead(log: seq<Row>, nextSeq: nat, after: seq<Row>, nextAfter: nat, c: Reader)
    requires ReadOk(log, nextSeq, c) && nextSeq <= nextAfter && forall r :: r in after ==> r in log || r.id >= nextSeq
    ensures ReadOk(after, nextAfter, c)
  {
  }

  lemma LaterRows(s: State, e: Event)
    requires RowsOk(s.log, s.nextSeq)
    ensures s.nextSeq <= Step(s, e).nextSeq && forall r :: r in Step(s, e).log ==> r in s.log || r.id >= s.nextSeq
  {
  }

  lemma StepKeepsReaders(s: State, e: Event)
    requires RowsOk(s.log, s.nextSeq) && ReadersOk(s)
    ensures ReadersOk(Step(s, e))
  {
    if e.ReadPage? {
      if e.reader in s.readers && s.readers[e.reader].node !in s.purged {
        ReadPageKeeps(s, e.reader, e.unreadable);
      }
    } else {
      var t := Step(s, e);
      LaterRows(s, e);
      forall i | i in t.readers
        ensures ReadOk(t.log, t.nextSeq, t.readers[i])
      {
        if i in s.readers {
          LogKeepsRead(s.log, s.nextSeq, t.log, t.nextSeq, s.readers[i]);
        }
      }
    }
  }

  /** A compaction is asked by a client that read the log: its snapshot is what it has, and it names a row
      no later than the last before one it could not decrypt. */
  predicate ByReader(s: State, e: Event) {
    e.Compact? ==> exists i | i in s.readers ::
      s.readers[i].node == e.node && e.upTo <= s.readers[i].upTo && s.readers[i].have <= e.snapshot
  }

  predicate ReaderRun(s: State, es: seq<Event>)
    decreases |es|
  {
    |es| == 0 || (ByReader(s, es[0]) && ReaderRun(Step(s, es[0]), es[1..]))
  }

  /** Such compactions are honest, whatever was persisted, compacted or purged since the client read. */
  lemma {:induction false} ReadersAreHonest(s: State, es: seq<Event>)
    requires RowsOk(s.log, s.nextSeq) && ReadersOk(s) && ReaderRun(s, es)
    ensures HonestRun(s, es)
    decreases |es|
  {
    if |es| > 0 {
      StepKeepsRows(s, es[0]);
      StepKeepsReaders(s, es[0]);
      ReadersAreHonest(Step(s, es[0]), es[1..]);
    }
  }

  /** So the guarantees rest on the protocol alone: whenever compactions are asked by clients that read
      the log, a client in the room that paged to the end has every update broadcast for the node. */
  lemma JoinCoverageByProtocol(es: seq<Event>, p: SocketId, q: nat)
    requires ReaderRun(EMPTY, es)
    requires var s := Run(EMPTY, es);
             q in s.updates && p in s.clients && s.clients[p].done && p in RoomOf(s.rooms, NodeRoom(s.updates[q].node))
    ensures q !in Run(EMPTY, es).pending || Run(EMPTY, es).updates[q].sender == p
            ==> Run(EMPTY, es).updates[q].ops <= Run(EMPTY, es).clients[p].have
  {
    ReadersAreHonest(EMPTY, es);
    JoinCoverage(es, p, q);
  }

  /** And an acknowledged update is in the document exactly as long as its node is not purged. */
  lemma AckedByProtocol(before: seq<Event>, after: seq<Event>, q: nat)
    requires q in Run(EMPTY, before).acked && ReaderRun(EMPTY, before) && ReaderRun(Run(EMPTY, before), after)
    ensures var s, t := Run(EMPTY, before), Run(Run(EMPTY, before), after);
            && q in s.updates
            && (s.updates[q].ops <= Doc(t.log, s.updates[q].node) <==> s.updates[q].node !in t.purged || s.updates[q].ops == {})
  {
    ReadersAreHonest(EMPTY, before);
    RunKeepsReaders(EMPTY, before);
    ReadersAreHonest(Run(EMPTY, before), after);
    AckedIsDurable(before, after, q);
  }

  lemma {:induction false} RunKeepsReaders(s: State, es: seq<Event>)
    requires RowsOk(s.log, s.nextSeq) && ReadersOk(s)
    ensures RowsOk(Run(s, es).log, Run(s, es).nextSeq) && ReadersOk(Run(s, es))
    decreases |es|
  {
    if |es| > 0 {
      StepKeepsRows(s, es[0]);
      StepKeepsReaders(s, es[0]);
      RunKeepsReaders(Step(s, es[0]), es[1..]);
    }
  }
}
