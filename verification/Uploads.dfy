/**
 Content uploads as the server interleaves them (server/src/routes/nodes.ts PUT content and purge,
 server/src/lib/housekeeping.ts): each streams a blob, locks its node, checks the version and epoch it
 was based on, locks its organisation, checks the quota and commits; blobs whose rows are gone are
 deleted later. Strict mode. The server may stop between any two steps.
 */
module Uploads {
  import opened Prelude
  import opened Forest
  import opened Preconditions

  type OrgId = nat
  type Key = nat
  type UploadId = nat

  datatype Node = Node(
    org: OrgId, contentRef: Option<Key>, current: Option<VersionId>,
    epoch: nat, rotationRequired: bool, trashed: bool)

  /** A row of node_versions; `org` is that of its node, as the quota query joins it. */
  datatype Version = Version(
    id: VersionId, node: NodeId, org: OrgId, no: nat, ref: Key, size: nat, epoch: nat, createdAt: nat)

  /** NodeLocked: the row lock is held and the base was checked. OrgLocked: so is the organisation's
      lock, and the quota was checked. */
  datatype Phase = Streaming | Stored | NodeLocked | OrgLocked | Finished

  /** `at` is the time its version will be created, if it is accepted. */
  datatype Upload = Upload(node: NodeId, key: Key, size: nat, base: ContentBase, at: nat, phase: Phase)

  /** History: an accepted write, with what it named as its base. */
  datatype Commit = Commit(node: NodeId, version: VersionId, no: nat, base: ContentBase)

  /** History: what was streamed into a blob, and for which node. */
  datatype Content = Content(node: NodeId, size: nat, at: nat)

  type Nodes = map<NodeId, Node>
  type UploadMap = map<UploadId, Upload>

  datatype State = State(
    nodes: Nodes, parents: Parents, versions: seq<Version>, blobs: set<Key>, doomed: set<Key>, uploads: UploadMap,
    nodeLocks: map<NodeId, UploadId>, orgLocks: map<OrgId, UploadId>,
    usedKeys: set<Key>, usedNodes: set<NodeId>, nextId: VersionId, commits: seq<Commit>,
    streamed: map<Key, Content>)

  datatype Event =
    | Create(node: NodeId, org: OrgId, parent: Option<NodeId>)
    | Trash(node: NodeId)
    | Flag(node: NodeId)
    | Rotate(node: NodeId)
    | Begin(upload: UploadId, node: NodeId, key: Key, size: nat, base: ContentBase, at: nat)
    | StreamDone(upload: UploadId)
    | LockNode(upload: UploadId)
    | LockOrg(upload: UploadId)
    | CommitTx(upload: UploadId)
    | Abort(upload: UploadId)
    | Purge(node: NodeId)
    | Retain(cutoff: nat)
    | DeleteBlob(key: Key)
    | Crash

  /** Quotas in bytes; an organisation without one is unlimited. */
  type Quotas = map<OrgId, nat>

  // ---------------------------------------------------------------- tables

  function Used(versions: seq<Version>, org: OrgId): nat {
    if |versions| == 0 then 0
    else Used(versions[..|versions| - 1], org) + if versions[|versions| - 1].org == org then versions[|versions| - 1].size else 0
  }

  /** COALESCE(MAX(version_no), 0) */
  function MaxNo(versions: seq<Version>, n: NodeId): nat {
    if |versions| == 0 then 0
    else
      var before := MaxNo(versions[..|versions| - 1], n);
      var v := versions[|versions| - 1];
      if v.node == n && v.no > before then v.no else before
  }

  function Without(versions: seq<Version>, drop: set<VersionId>): seq<Version> {
    if |versions| == 0 then []
    else
      var v := versions[|versions| - 1];
      Without(versions[..|versions| - 1], drop) + if v.id in drop then [] else [v]
  }

  function IdsUnder(versions: seq<Version>, nodes: set<NodeId>): set<VersionId> {
    set v | v in versions && v.node in nodes :: v.id
  }

  function RefsOf(versions: seq<Version>, ids: set<VersionId>): set<Key> {
    set v | v in versions && v.id in ids :: v.ref
  }

  function RefsUnder(versions: seq<Version>, under: set<NodeId>): set<Key> {
    set v | v in versions && v.node in under :: v.ref
  }

  /** subtreeBlobRefs: the content of the nodes and of their versions. */
  function BlobRefs(nodes: Nodes, versions: seq<Version>, under: set<NodeId>): set<Key> {
    (set n | n in nodes && n in under && nodes[n].contentRef.Some? :: nodes[n].contentRef.value)
    + RefsUnder(versions, under)
  }

  predicate IsActive(u: Upload) {
    u.phase != Finished
  }

  predicate HoldsNode(u: Upload) {
    u.phase == NodeLocked || u.phase == OrgLocked
  }

  // ---------------------------------------------------------------- steps

  function Release<K>(locks: map<K, UploadId>, u: UploadId): map<K, UploadId> {
    map k | k in locks && locks[k] != u :: locks[k]
  }

  /** The rejection path: the transaction ends and the streamed blob will be deleted. */
  function Fail(s: State, u: UploadId): State
    requires u in s.uploads
  {
    s.(uploads := s.uploads[u := s.uploads[u].(phase := Finished)], doomed := s.doomed + {s.uploads[u].key},
       nodeLocks := Release(s.nodeLocks, u), orgLocks := Release(s.orgLocks, u))
  }

  function SetPhase(s: State, u: UploadId, phase: Phase): State
    requires u in s.uploads
  {
    s.(uploads := s.uploads[u := s.uploads[u].(phase := phase)])
  }

  function DoLockNode(s: State, u: UploadId): State
    requires u in s.uploads
  {
    var up := s.uploads[u];
    if up.phase != Stored || up.node in s.nodeLocks then s
    else if up.node !in s.nodes then Fail(s, u)
    else
      var n := s.nodes[up.node];
      if AssertContentBase(up.base, n.current, n.epoch, n.rotationRequired).Some? then Fail(s, u)
      else SetPhase(s, u, NodeLocked).(nodeLocks := s.nodeLocks[up.node := u])
  }

  predicate OverQuota(quotas: Quotas, versions: seq<Version>, org: OrgId, size: nat) {
    org in quotas && Used(versions, org) + size > quotas[org]
  }

  function DoLockOrg(quotas: Quotas, s: State, u: UploadId): State
    requires u in s.uploads
  {
    var up := s.uploads[u];
    if up.phase != NodeLocked || up.node !in s.nodes || s.nodes[up.node].org in s.orgLocks then s
    else if OverQuota(quotas, s.versions, s.nodes[up.node].org, up.size) then Fail(s, u)
    else SetPhase(s, u, OrgLocked).(orgLocks := s.orgLocks[s.nodes[up.node].org := u])
  }

  function DoCommit(s: State, u: UploadId): State
    requires u in s.uploads && s.uploads[u].node in s.nodes
  {
    var up := s.uploads[u];
    var n := s.nodes[up.node];
    var v := Version(s.nextId, up.node, n.org, MaxNo(s.versions, up.node) + 1, up.key, up.size, n.epoch, up.at);
    s.(versions := s.versions + [v], nextId := s.nextId + 1,
       nodes := s.nodes[up.node := n.(contentRef := Some(up.key), current := Some(v.id))],
       uploads := s.uploads[u := up.(phase := Finished)],
       nodeLocks := Release(s.nodeLocks, u), orgLocks := Release(s.orgLocks, u),
       commits := s.commits + [Commit(up.node, v.id, v.no, up.base)])
  }

  ghost function DoPurge(s: State, n: NodeId): State {
    var gone := Subtree(s.parents, {n});
    if n !in s.nodes || !s.nodes[n].trashed || !(gone !! s.nodeLocks.Keys) then s
    else
      s.(nodes := map m | m in s.nodes && m !in gone :: s.nodes[m], parents := s.parents - gone,
         versions := Without(s.versions, IdsUnder(s.versions, gone)),
         doomed := s.doomed + BlobRefs(s.nodes, s.versions, gone))
  }

  /** How many versions one sweep deletes at most. */
  const VERSION_PURGE_BATCH_LIMIT: nat := 500

  /** Older than the cutoff, and not the current version of its node. */
  predicate IsExpired(nodes: Nodes, v: Version, cutoff: nat) {
    v.createdAt < cutoff && v.node in nodes && nodes[v.node].current != Some(v.id)
  }

  function AllExpired(nodes: Nodes, versions: seq<Version>, cutoff: nat): seq<Version> {
    if |versions| == 0 then []
    else
      var v := versions[|versions| - 1];
      AllExpired(nodes, versions[..|versions| - 1], cutoff) + if IsExpired(nodes, v, cutoff) then [v] else []
  }

  function InsertByAge(v: Version, vs: seq<Version>): seq<Version> {
    if |vs| == 0 || v.createdAt < vs[0].createdAt then [v] + vs else [vs[0]] + InsertByAge(v, vs[1..])
  }

  /** ORDER BY created_at ASC */
  function ByAge(vs: seq<Version>): seq<Version> {
    if |vs| == 0 then [] else InsertByAge(vs[|vs| - 1], ByAge(vs[..|vs| - 1]))
  }

  /** The sub-select of the sweep. */
  function Swept(nodes: Nodes, versions: seq<Version>, cutoff: nat): seq<Version> {
    var vs := ByAge(AllExpired(nodes, versions, cutoff));
    if |vs| <= VERSION_PURGE_BATCH_LIMIT then vs else vs[..VERSION_PURGE_BATCH_LIMIT]
  }

  function SweptIds(nodes: Nodes, versions: seq<Version>, cutoff: nat): set<VersionId> {
    set v | v in Swept(nodes, versions, cutoff) :: v.id
  }

  function DoRetain(s: State, cutoff: nat): State {
    var ids := SweptIds(s.nodes, s.versions, cutoff);
    s.(versions := Without(s.versions, ids), doomed := s.doomed + RefsOf(s.versions, ids))
  }

  function DoCrash(s: State): State {
    s.(uploads := map u | u in s.uploads :: s.uploads[u].(phase := Finished), nodeLocks := map[], orgLocks := map[], doomed := {})
  }

  predicate Writable(s: State, n: NodeId) {
    n in s.nodes && n !in s.nodeLocks
  }

  ghost function Step(quotas: Quotas, s: State, e: Event): State {
    match e
    case Create(n, org, parent) =>
      if n in s.usedNodes || (parent.Some? && (parent.value !in s.nodes || s.nodes[parent.value].org != org)) then s
      else s.(nodes := s.nodes[n := Node(org, None, None, 1, false, false)], parents := s.parents[n := parent],
               usedNodes := s.usedNodes + {n})
    case Trash(n) => if Writable(s, n) then s.(nodes := s.nodes[n := s.nodes[n].(trashed := true)]) else s
    case Flag(n) => if Writable(s, n) then s.(nodes := s.nodes[n := s.nodes[n].(rotationRequired := true)]) else s
    case Rotate(n) =>
      if Writable(s, n) then s.(nodes := s.nodes[n := s.nodes[n].(epoch := s.nodes[n].epoch + 1, rotationRequired := false)]) else s
    case Begin(u, n, key, size, base, at) =>
      if u in s.uploads || key in s.usedKeys then s
      else s.(uploads := s.uploads[u := Upload(n, key, size, base, at, Streaming)], blobs := s.blobs + {key}, usedKeys := s.usedKeys + {key},
               streamed := s.streamed[key := Content(n, size, at)])
    case StreamDone(u) => if u in s.uploads && s.uploads[u].phase == Streaming then SetPhase(s, u, Stored) else s
    case LockNode(u) => if u in s.uploads then DoLockNode(s, u) else s
    case LockOrg(u) => if u in s.uploads then DoLockOrg(quotas, s, u) else s
    case CommitTx(u) =>
      if u in s.uploads && s.uploads[u].phase == OrgLocked && s.uploads[u].node in s.nodes then DoCommit(s, u) else s
    case Abort(u) => if u in s.uploads && IsActive(s.uploads[u]) then Fail(s, u) else s
    case Purge(n) => DoPurge(s, n)
    case Retain(cutoff) => DoRetain(s, cutoff)
    case DeleteBlob(key) => if key in s.doomed then s.(blobs := s.blobs - {key}, doomed := s.doomed - {key}) else s
    case Crash => DoCrash(s)
  }

  const EMPTY: State := State(map[], map[], [], {}, {}, map[], map[], map[], {}, {}, 0, [], map[])

  ghost function Run(quotas: Quotas, s: State, es: seq<Event>): State
    decreases |es|
  {
    if |es| == 0 then s else Run(quotas, Step(quotas, s, es[0]), es[1..])
  }

  // ---------------------------------------------------------------- lemmas on tables

  lemma {:induction false} WithoutIs(versions: seq<Version>, drop: set<VersionId>)
    ensures forall v :: v in Without(versions, drop) <==> v in versions && v.id !in drop
  {
    if |versions| > 0 {
      WithoutIs(versions[..|versions| - 1], drop);
      assert versions == versions[..|versions| - 1] + [versions[|versions| - 1]];
    }
  }

  lemma {:induction false} WithoutUses(versions: seq<Version>, drop: set<VersionId>, org: OrgId)
    ensures Used(Without(versions, drop), org) <= Used(versions, org)
  {
    if |versions| > 0 {
      var n := |versions| - 1;
      WithoutUses(versions[..n], drop, org);
      if versions[n].id !in drop {
        UsedOneMore(Without(versions[..n], drop), versions[n], org);
      } else {
        assert Without(versions, drop) == Without(versions[..n], drop);
      }
    }
  }

  lemma UsedOneMore(versions: seq<Version>, v: Version, org: OrgId)
    ensures Used(versions + [v], org) == Used(versions, org) + if v.org == org then v.size else 0
  {
    assert (versions + [v])[..|versions|] == versions;
  }

  lemma MaxNoOneMore(versions: seq<Version>, v: Version, n: NodeId)
    ensures MaxNo(versions + [v], n) == if v.node == n && v.no > MaxNo(versions, n) then v.no else MaxNo(versions, n)
  {
    assert (versions + [v])[..|versions|] == versions;
  }

  lemma {:induction false} MaxNoIsMax(versions: seq<Version>, n: NodeId)
    ensures forall v :: v in versions && v.node == n ==> v.no <= MaxNo(versions, n)
    ensures MaxNo(versions, n) == 0 || exists v :: v in versions && v.node == n && v.no == MaxNo(versions, n)
  {
    if |versions| > 0 {
      MaxNoIsMax(versions[..|versions| - 1], n);
      assert versions == versions[..|versions| - 1] + [versions[|versions| - 1]];
    }
  }

  /** Dropping versions, but not the highest of n, does not change the next number. */
  lemma MaxNoKeeps(versions: seq<Version>, drop: set<VersionId>, n: NodeId, top: Version)
    requires top in versions && top.node == n && top.id !in drop && top.no == MaxNo(versions, n)
    ensures MaxNo(Without(versions, drop), n) == MaxNo(versions, n)
  {
    WithoutIs(versions, drop);
    MaxNoIsMax(versions, n);
    MaxNoIsMax(Without(versions, drop), n);
  }

  // ---------------------------------------------------------------- the sweep

  lemma {:induction false} AllExpiredIs(nodes: Nodes, versions: seq<Version>, cutoff: nat)
    ensures forall v :: v in AllExpired(nodes, versions, cutoff) <==> v in versions && IsExpired(nodes, v, cutoff)
  {
    if |versions| > 0 {
      AllExpiredIs(nodes, versions[..|versions| - 1], cutoff);
      assert versions == versions[..|versions| - 1] + [versions[|versions| - 1]];
    }
  }

  predicate OldestFirst(vs: seq<Version>) {
    forall i, j | 0 <= i < j < |vs| :: vs[i].createdAt <= vs[j].createdAt
  }

  lemma {:induction false} InsertByAgeIs(v: Version, vs: seq<Version>)
    requires OldestFirst(vs)
    ensures OldestFirst(InsertByAge(v, vs)) && forall x :: x in InsertByAge(v, vs) <==> x == v || x in vs
  {
    if |vs| > 0 && v.createdAt >= vs[0].createdAt {
      var rest := InsertByAge(v, vs[1..]);
      InsertByAgeIs(v, vs[1..]);
      assert forall x :: x in vs <==> x == vs[0] || x in vs[1..];
      forall j | 0 <= j < |rest|
        ensures vs[0].createdAt <= rest[j].createdAt
      {
        assert rest[j] in rest;
      }
    }
  }

  lemma {:induction false} ByAgeIs(vs: seq<Version>)
    ensures OldestFirst(ByAge(vs)) && forall x :: x in ByAge(vs) <==> x in vs
  {
    if |vs| > 0 {
      ByAgeIs(vs[..|vs| - 1]);
      InsertByAgeIs(vs[|vs| - 1], ByAge(vs[..|vs| - 1]));
      assert vs == vs[..|vs| - 1] + [vs[|vs| - 1]];
    }
  }

  /** A sweep takes expired versions only, at most a batch of them, and leaves an expired one only if it
      takes a full batch of versions none of which is younger. */
  lemma SweepTakesOldest(nodes: Nodes, versions: seq<Version>, cutoff: nat)
    ensures |Swept(nodes, versions, cutoff)| <= VERSION_PURGE_BATCH_LIMIT
    ensures forall v :: v in Swept(nodes, versions, cutoff) ==> v in versions && IsExpired(nodes, v, cutoff)
    ensures forall v, w :: v in versions && IsExpired(nodes, v, cutoff) && v !in Swept(nodes, versions, cutoff)
                           && w in Swept(nodes, versions, cutoff) ==>
              |Swept(nodes, versions, cutoff)| == VERSION_PURGE_BATCH_LIMIT && w.createdAt <= v.createdAt
  {
    AllExpiredIs(nodes, versions, cutoff);
    ByAgeIs(AllExpired(nodes, versions, cutoff));
    var vs, taken := ByAge(AllExpired(nodes, versions, cutoff)), Swept(nodes, versions, cutoff);
    assert forall v :: v in taken ==> v in vs;
    forall v, w | v in vs && v !in taken && w in taken
      ensures |taken| == VERSION_PURGE_BATCH_LIMIT && w.createdAt <= v.createdAt
    {
      var i :| 0 <= i < |vs| && vs[i] == v;
      var j :| 0 <= j < |taken| && taken[j] == w;
      assert forall l :: 0 <= l < |taken| ==> taken[l] == vs[l] && vs[l] in taken;
    }
  }
}
