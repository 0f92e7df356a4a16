/**
 What uploads guarantee under every interleaving and at every point where the server may stop: no row
 names a missing blob, the versions of a node form one chain without a lost update, and concurrent
 uploads never exceed an organisation's quota.
 */
module UploadSafety {
  import opened Prelude
  import opened Forest
  import opened Preconditions
  import opened Uploads

  // ---------------------------------------------------------------- invariants

  predicate SameRow(v: Version, w: Version) {
    v.id == w.id || v.ref == w.ref || (v.node == w.node && v.no == w.no)
  }

  /** Ids, blobs and numbers within a node are never shared by two versions. */
  predicate VersionsOk(versions: seq<Version>, nextId: VersionId) {
    && (forall v, w | v in versions && w in versions :: SameRow(v, w) ==> v == w)
    && (forall v | v in versions :: v.id < nextId && v.no > 0)
  }

  predicate Alive(key: Key, blobs: set<Key>, doomed: set<Key>, usedKeys: set<Key>) {
    key in blobs && key !in doomed && key in usedKeys
  }

  predicate BlobsOk(versions: seq<Version>, blobs: set<Key>, doomed: set<Key>, usedKeys: set<Key>) {
    doomed <= usedKeys && forall v | v in versions :: Alive(v.ref, blobs, doomed, usedKeys)
  }

  predicate Streamed(uploads: UploadMap, u: UploadId) {
    u in uploads && IsActive(uploads[u])
  }

  /** The blob of an upload under way is there, and nobody else's. */
  predicate ActiveOk(uploads: UploadMap, versions: seq<Version>, blobs: set<Key>, doomed: set<Key>, usedKeys: set<Key>) {
    && (forall u | u in uploads && Streamed(uploads, u) ::
          Alive(uploads[u].key, blobs, doomed, usedKeys) && forall v | v in versions :: v.ref != uploads[u].key)
    && (forall u, w | u in uploads && w in uploads :: Streamed(uploads, u) && Streamed(uploads, w) && uploads[u].key == uploads[w].key ==> u == w)
  }

  predicate IsTop(versions: seq<Version>, n: NodeId, node: Node, v: Version) {
    v.node == n && Some(v.id) == node.current && Some(v.ref) == node.contentRef && v.no == MaxNo(versions, n)
  }

  /** A node names its highest version and that version's blob, or has no version at all. */
  predicate NodeOk(versions: seq<Version>, n: NodeId, node: Node) {
    if node.current.None? then node.contentRef.None? && forall v | v in versions :: v.node != n
    else exists v | v in versions :: IsTop(versions, n, node, v)
  }

  predicate NodesOk(nodes: Nodes, versions: seq<Version>, usedNodes: set<NodeId>) {
    && (forall n | n in nodes :: NodeOk(versions, n, nodes[n]) && n in usedNodes)
    && (forall v | v in versions :: v.node in nodes && v.org == nodes[v.node].org)
  }

  /** Who holds a lock is registered for it, and what it checked under the lock still holds. */
  predicate HolderOk(up: Upload, u: UploadId, nodes: Nodes, nodeLocks: map<NodeId, UploadId>, orgLocks: map<OrgId, UploadId>) {
    HoldsNode(up) ==>
      && up.node in nodeLocks && nodeLocks[up.node] == u && up.node in nodes
      && AssertContentBase(up.base, nodes[up.node].current, nodes[up.node].epoch, nodes[up.node].rotationRequired).None?
      && (up.phase == OrgLocked ==> nodes[up.node].org in orgLocks && orgLocks[nodes[up.node].org] == u)
  }

  predicate LocksOk(uploads: UploadMap, nodes: Nodes, nodeLocks: map<NodeId, UploadId>, orgLocks: map<OrgId, UploadId>) {
    forall u | u in uploads :: HolderOk(uploads[u], u, nodes, nodeLocks, orgLocks)
  }

  predicate QuotaOk(quotas: Quotas, versions: seq<Version>) {
    forall org | org in quotas :: Used(versions, org) <= quotas[org]
  }

  predicate Fits(quotas: Quotas, up: Upload, nodes: Nodes, versions: seq<Version>) {
    up.phase == OrgLocked && up.node in nodes ==> !OverQuota(quotas, versions, nodes[up.node].org, up.size)
  }

  /** The room an upload found under its organisation's lock is still there. */
  predicate PromisesOk(quotas: Quotas, uploads: UploadMap, nodes: Nodes, versions: seq<Version>) {
    forall u | u in uploads :: Fits(quotas, uploads[u], nodes, versions)
  }

  function LastCommit(commits: seq<Commit>, n: NodeId): Option<Commit> {
    if |commits| == 0 then None
    else if commits[|commits| - 1].node == n then Some(commits[|commits| - 1])
    else LastCommit(commits[..|commits| - 1], n)
  }

  /** Each accepted write named as its base exactly the write accepted before it, and is numbered next. */
  predicate IsChain(commits: seq<Commit>) {
    |commits| == 0 ||
    (var n := |commits| - 1;
     var last := LastCommit(commits[..n], commits[n].node);
     && IsChain(commits[..n])
     && commits[n].base.version == (if last.Some? then Some(last.value.version) else None)
     && commits[n].no == (if last.Some? then last.value.no + 1 else 1))
  }

  predicate TopIsLast(versions: seq<Version>, commits: seq<Commit>, n: NodeId, current: Option<VersionId>) {
    var last := LastCommit(commits, n);
    if last.None? then current.None? && MaxNo(versions, n) == 0
    else current == Some(last.value.version) && MaxNo(versions, n) == last.value.no
  }

  predicate CommitsOk(nodes: Nodes, versions: seq<Version>, commits: seq<Commit>, usedNodes: set<NodeId>) {
    && IsChain(commits) && (forall c | c in commits :: c.node in usedNodes)
    && (forall n | n in nodes :: n in usedNodes && TopIsLast(versions, commits, n, nodes[n].current))
  }

  // ---------------------------------------------------------------- keys and blobs


  lemma StepKeepsVersions(quotas: Quotas, s: State, e: Event)
    requires VersionsOk(s.versions, s.nextId) && ActiveOk(s.uploads, s.versions, s.blobs, s.doomed, s.usedKeys)
    ensures VersionsOk(Step(quotas, s, e).versions, Step(quotas, s, e).nextId)
  {
    match e
    case CommitTx(u) =>
      if u in s.uploads && s.uploads[u].phase == OrgLocked && s.uploads[u].node in s.nodes {
        CommitKeepsVersions(s, u);
      }
    case Purge(n) => WithoutIs(s.versions, IdsUnder(s.versions, Subtree(s.parents, {n})));
    case Retain(cutoff) => WithoutIs(s.versions, SweptIds(s.nodes, s.versions, cutoff));
    case _ => VersionsUntouched(quotas, s, e);
  }

  lemma VersionsUntouched(quotas: Quotas, s: State, e: Event)
    requires !(e.CommitTx? || e.Purge? || e.Retain?)
    ensures Step(quotas, s, e).versions == s.versions && Step(quotas, s, e).nextId == s.nextId
  {
  }

  lemma CommitKeepsVersions(s: State, u: UploadId)
    requires VersionsOk(s.versions, s.nextId) && ActiveOk(s.uploads, s.versions, s.blobs, s.doomed, s.usedKeys)
    requires Streamed(s.uploads, u) && s.uploads[u].node in s.nodes
    ensures VersionsOk(DoCommit(s, u).versions, DoCommit(s, u).nextId)
  {
    var v := DoCommit(s, u).versions[|s.versions|];
    MaxNoIsMax(s.versions, v.node);
    forall w | w in s.versions
      ensures !SameRow(v, w) && !SameRow(w, v)
    {
      assert w.ref != s.uploads[u].key;
    }
  }

  /** Dropping rows and dooming exactly their blobs leaves the blobs of the others alone. */
  lemma DropKeepsBlobs(versions: seq<Version>, drop: set<VersionId>, refs: set<Key>, nextId: VersionId,
                       blobs: set<Key>, doomed: set<Key>, usedKeys: set<Key>)
    requires VersionsOk(versions, nextId) && BlobsOk(versions, blobs, doomed, usedKeys) && refs <= RefsOf(versions, drop)
    ensures BlobsOk(Without(versions, drop), blobs, doomed + refs, usedKeys)
  {
    WithoutIs(versions, drop);
    forall v | v in Without(versions, drop)
      ensures v.ref !in refs
    {
      if v.ref in refs {
        var w :| w in versions && w.id in drop && w.ref == v.ref;
        assert SameRow(v, w);
      }
    }
  }

  /** The refs a purge collects are those of the versions it deletes: nodes name no other blob. */
  lemma CollectedRefs(nodes: Nodes, versions: seq<Version>, usedNodes: set<NodeId>, under: set<NodeId>)
    requires NodesOk(nodes, versions, usedNodes)
    ensures BlobRefs(nodes, versions, under) == RefsUnder(versions, under) <= RefsOf(versions, IdsUnder(versions, under))
  {
    forall n | n in nodes && n in under && nodes[n].contentRef.Some?
      ensures nodes[n].contentRef.value in RefsUnder(versions, under)
    {
      assert NodeOk(versions, n, nodes[n]);
      var v :| v in versions && IsTop(versions, n, nodes[n], v);
    }
  }

  lemma FailKeepsBlobs(s: State, u: UploadId)
    requires BlobsOk(s.versions, s.blobs, s.doomed, s.usedKeys) && Streamed(s.uploads, u)
    requires ActiveOk(s.uploads, s.versions, s.blobs, s.doomed, s.usedKeys)
    ensures BlobsOk(s.versions, Fail(s, u).blobs, Fail(s, u).doomed, Fail(s, u).usedKeys)
    ensures ActiveOk(Fail(s, u).uploads, s.versions, Fail(s, u).blobs, Fail(s, u).doomed, Fail(s, u).usedKeys)
  {
    var t := Fail(s, u);
    forall w | w in t.uploads && Streamed(t.uploads, w)
      ensures Alive(t.uploads[w].key, t.blobs, t.doomed, t.usedKeys) && Streamed(s.uploads, w) && t.uploads[w] == s.uploads[w]
    {
      assert Streamed(s.uploads, w) && s.uploads[w].key != s.uploads[u].key;
    }
  }

  lemma CommitKeepsBlobs(s: State, u: UploadId)
    requires BlobsOk(s.versions, s.blobs, s.doomed, s.usedKeys) && Streamed(s.uploads, u) && s.uploads[u].node in s.nodes
    requires ActiveOk(s.uploads, s.versions, s.blobs, s.doomed, s.usedKeys)
    ensures BlobsOk(DoCommit(s, u).versions, s.blobs, s.doomed, s.usedKeys)
    ensures ActiveOk(DoCommit(s, u).uploads, DoCommit(s, u).versions, s.blobs, s.doomed, s.usedKeys)
  {
    var t := DoCommit(s, u);
    assert t.versions[|s.versions|].ref == s.uploads[u].key;
    forall w | w in t.uploads && Streamed(t.uploads, w)
      ensures Streamed(s.uploads, w) && t.uploads[w] == s.uploads[w] && w != u
      ensures forall v | v in t.versions :: v.ref != t.uploads[w].key
    {
      assert Streamed(s.uploads, w);
    }
  }

  lemma DropKeepsActive(uploads: UploadMap, versions: seq<Version>, drop: set<VersionId>, refs: set<Key>,
                        blobs: set<Key>, doomed: set<Key>, usedKeys: set<Key>)
    requires ActiveOk(uploads, versions, blobs, doomed, usedKeys) && refs <= RefsOf(versions, drop)
    ensures ActiveOk(uploads, Without(versions, drop), blobs, doomed + refs, usedKeys)
  {
    WithoutIs(versions, drop);
  }

  predicate KeysOk(s: State) {
    && VersionsOk(s.versions, s.nextId) && BlobsOk(s.versions, s.blobs, s.doomed, s.usedKeys)
    && ActiveOk(s.uploads, s.versions, s.blobs, s.doomed, s.usedKeys)
  }

  lemma PhaseKeepsActive(s: State, u: UploadId, phase: Phase)
    requires KeysOk(s) && Streamed(s.uploads, u) && phase != Finished
    ensures ActiveOk(SetPhase(s, u, phase).uploads, s.versions, s.blobs, s.doomed, s.usedKeys)
  {
    var t := SetPhase(s, u, phase);
    forall w | w in t.uploads
      ensures (Streamed(t.uploads, w) <==> Streamed(s.uploads, w)) && t.uploads[w].key == s.uploads[w].key
    {
    }
  }

  lemma BeginKeepsActive(s: State, u: UploadId, up: Upload)
    requires KeysOk(s) && u !in s.uploads && up.key !in s.usedKeys && up.phase == Streaming
    ensures ActiveOk(s.uploads[u := up], s.versions, s.blobs + {up.key}, s.doomed, s.usedKeys + {up.key})
  {
    var uploads := s.uploads[u := up];
    forall w | w in s.uploads
      ensures Streamed(uploads, w) <==> Streamed(s.uploads, w)
    {
    }
  }

  lemma DeleteKeepsKeys(s: State, key: Key)
    requires KeysOk(s) && key in s.doomed
    ensures BlobsOk(s.versions, s.blobs - {key}, s.doomed - {key}, s.usedKeys)
    ensures ActiveOk(s.uploads, s.versions, s.blobs - {key}, s.doomed - {key}, s.usedKeys)
  {
  }

  lemma CrashKeepsKeys(s: State)
    requires KeysOk(s)
    ensures BlobsOk(s.versions, s.blobs, {}, s.usedKeys)
    ensures ActiveOk(DoCrash(s).uploads, s.versions, s.blobs, {}, s.usedKeys)
  {
    forall u | u in DoCrash(s).uploads
      ensures !Streamed(DoCrash(s).uploads, u)
    {
    }
  }

  lemma StepKeepsKeys(quotas: Quotas, s: State, e: Event)
    requires KeysOk(s) && NodesOk(s.nodes, s.versions, s.usedNodes)
    ensures KeysOk(Step(quotas, s, e))
  {
    StepKeepsVersions(quotas, s, e);
    match e
    case Begin(u, n, key, size, base, at) =>
      if u !in s.uploads && key !in s.usedKeys { BeginKeepsActive(s, u, Upload(n, key, size, base, at, Streaming)); }
    case StreamDone(u) => if u in s.uploads && s.uploads[u].phase == Streaming { PhaseKeepsActive(s, u, Stored); }
    case LockNode(u) =>
      if u in s.uploads && s.uploads[u].phase == Stored {
        FailKeepsBlobs(s, u);
        PhaseKeepsActive(s, u, NodeLocked);
      }
    case LockOrg(u) =>
      if u in s.uploads && s.uploads[u].phase == NodeLocked {
        FailKeepsBlobs(s, u);
        PhaseKeepsActive(s, u, OrgLocked);
      }
    case CommitTx(u) =>
      if u in s.uploads && s.uploads[u].phase == OrgLocked && s.uploads[u].node in s.nodes { CommitKeepsBlobs(s, u); }
    case Abort(u) => if u in s.uploads && IsActive(s.uploads[u]) { FailKeepsBlobs(s, u); }
    case Purge(n) => PurgeKeepsKeys(s, n);
    case Retain(cutoff) =>
      var ids := SweptIds(s.nodes, s.versions, cutoff);
      DropKeepsBlobs(s.versions, ids, RefsOf(s.versions, ids), s.nextId, s.blobs, s.doomed, s.usedKeys);
      DropKeepsActive(s.uploads, s.versions, ids, RefsOf(s.versions, ids), s.blobs, s.doomed, s.usedKeys);
    case DeleteBlob(key) => if key in s.doomed { DeleteKeepsKeys(s, key); }
    case Crash => CrashKeepsKeys(s);
    case _ =>
  }

  lemma PurgeKeepsKeys(s: State, n: NodeId)
    requires KeysOk(s) && NodesOk(s.nodes, s.versions, s.usedNodes)
    ensures BlobsOk(DoPurge(s, n).versions, s.blobs, DoPurge(s, n).doomed, s.usedKeys)
    ensures ActiveOk(s.uploads, DoPurge(s, n).versions, s.blobs, DoPurge(s, n).doomed, s.usedKeys)
  {
    var gone := Subtree(s.parents, {n});
    var drop := IdsUnder(s.versions, gone);
    var refs := BlobRefs(s.nodes, s.versions, gone);
    CollectedRefs(s.nodes, s.versions, s.usedNodes, gone);
    DropKeepsBlobs(s.versions, drop, refs, s.nextId, s.blobs, s.doomed, s.usedKeys);
    DropKeepsActive(s.uploads, s.versions, drop, refs, s.blobs, s.doomed, s.usedKeys);
  }

  // ---------------------------------------------------------------- nodes

  /** Only fields other than the content change. */
  predicate SameContent(a: Node, b: Node) {
    a.org == b.org && a.contentRef == b.contentRef && a.current == b.current
  }

  lemma EditKeepsNodes(nodes: Nodes, versions: seq<Version>, usedNodes: set<NodeId>, n: NodeId, node: Node)
    requires NodesOk(nodes, versions, usedNodes) && n in nodes && SameContent(nodes[n], node)
    ensures NodesOk(nodes[n := node], versions, usedNodes)
  {
    assert NodeOk(versions, n, nodes[n]);
    assert NodeOk(versions, n, node) by {
      if node.current.Some? {
        var v :| v in versions && IsTop(versions, n, nodes[n], v);
        assert IsTop(versions, n, node, v);
      }
    }
  }

  lemma CreateKeepsNodes(nodes: Nodes, versions: seq<Version>, usedNodes: set<NodeId>, n: NodeId, node: Node)
    requires NodesOk(nodes, versions, usedNodes) && n !in usedNodes && node.current.None? && node.contentRef.None?
    ensures NodesOk(nodes[n := node], versions, usedNodes + {n})
  {
    forall v | v in versions
      ensures v.node != n
    {
      assert v.node in nodes && v.node in usedNodes;
    }
  }

  lemma CommitKeepsNode(s: State, u: UploadId, m: NodeId)
    requires NodesOk(s.nodes, s.versions, s.usedNodes) && u in s.uploads && s.uploads[u].node in s.nodes && m in s.nodes
    ensures NodeOk(DoCommit(s, u).versions, m, DoCommit(s, u).nodes[m])
  {
    var t := DoCommit(s, u);
    var v := t.versions[|s.versions|];
    assert NodeOk(s.versions, m, s.nodes[m]);
    MaxNoOneMore(s.versions, v, m);
    if m == v.node {
      assert v in t.versions && IsTop(t.versions, m, t.nodes[m], v);
    } else if s.nodes[m].current.Some? {
      var w :| w in s.versions && IsTop(s.versions, m, s.nodes[m], w);
      assert w in t.versions && IsTop(t.versions, m, t.nodes[m], w);
    }
  }

  lemma CommitKeepsNodes(s: State, u: UploadId)
    requires NodesOk(s.nodes, s.versions, s.usedNodes) && u in s.uploads && s.uploads[u].node in s.nodes
    ensures NodesOk(DoCommit(s, u).nodes, DoCommit(s, u).versions, s.usedNodes)
  {
    var t := DoCommit(s, u);
    forall m | m in t.nodes
      ensures NodeOk(t.versions, m, t.nodes[m]) && m in s.usedNodes
    {
      CommitKeepsNode(s, u, m);
    }
  }

  /** A node whose current version is not dropped keeps it as its highest. */
  lemma DropKeepsNode(versions: seq<Version>, nextId: VersionId, drop: set<VersionId>, n: NodeId, node: Node)
    requires NodeOk(versions, n, node) && (node.current.Some? ==> node.current.value !in drop)
    ensures NodeOk(Without(versions, drop), n, node)
    ensures node.current.Some? ==> MaxNo(Without(versions, drop), n) == MaxNo(versions, n)
  {
    WithoutIs(versions, drop);
    if node.current.Some? {
      var v :| v in versions && IsTop(versions, n, node, v);
      MaxNoKeeps(versions, drop, n, v);
      assert IsTop(Without(versions, drop), n, node, v);
    }
  }

  /** What the sweep's query promises: it never takes the current version of a node. */
  lemma SweepSparesCurrent(nodes: Nodes, versions: seq<Version>, usedNodes: set<NodeId>, nextId: VersionId, cutoff: nat, n: NodeId)
    requires NodesOk(nodes, versions, usedNodes) && VersionsOk(versions, nextId) && n in nodes && nodes[n].current.Some?
    ensures nodes[n].current.value !in SweptIds(nodes, versions, cutoff)
  {
    SweepTakesOldest(nodes, versions, cutoff);
    assert NodeOk(versions, n, nodes[n]);
    var v :| v in versions && IsTop(versions, n, nodes[n], v);
    forall w | w in Swept(nodes, versions, cutoff)
      ensures w.id != v.id
    {
      assert w != v;
      assert SameRow(w, v) ==> w == v;
    }
  }

  lemma RetainKeepsNodes(s: State, cutoff: nat)
    requires NodesOk(s.nodes, s.versions, s.usedNodes) && VersionsOk(s.versions, s.nextId)
    ensures NodesOk(DoRetain(s, cutoff).nodes, DoRetain(s, cutoff).versions, s.usedNodes)
  {
    var ids := SweptIds(s.nodes, s.versions, cutoff);
    WithoutIs(s.versions, ids);
    forall n | n in s.nodes
      ensures NodeOk(Without(s.versions, ids), n, s.nodes[n])
    {
      if s.nodes[n].current.Some? {
        SweepSparesCurrent(s.nodes, s.versions, s.usedNodes, s.nextId, cutoff, n);
      }
      DropKeepsNode(s.versions, s.nextId, ids, n, s.nodes[n]);
    }
  }

  lemma RetainKeepsChain(s: State, cutoff: nat)
    requires CommitsOk(s.nodes, s.versions, s.commits, s.usedNodes) && NodesOk(s.nodes, s.versions, s.usedNodes)
    requires VersionsOk(s.versions, s.nextId)
    ensures CommitsOk(s.nodes, DoRetain(s, cutoff).versions, s.commits, s.usedNodes)
  {
    var ids := SweptIds(s.nodes, s.versions, cutoff);
    forall n | n in s.nodes && s.nodes[n].current.Some?
      ensures s.nodes[n].current.value !in ids
    {
      SweepSparesCurrent(s.nodes, s.versions, s.usedNodes, s.nextId, cutoff, n);
    }
    DropKeepsChain(s, s.nodes, ids);
  }

  /** The current version of a node outside the subtree is not one of the subtree's. */
  lemma CurrentOutside(s: State, gone: set<NodeId>, m: NodeId)
    requires NodesOk(s.nodes, s.versions, s.usedNodes) && VersionsOk(s.versions, s.nextId) && m in s.nodes && m !in gone
    ensures s.nodes[m].current.Some? ==> s.nodes[m].current.value !in IdsUnder(s.versions, gone)
  {
    assert NodeOk(s.versions, m, s.nodes[m]);
    if s.nodes[m].current.Some? {
      var v :| v in s.versions && IsTop(s.versions, m, s.nodes[m], v);
      forall w | w in s.versions && w.node in gone
        ensures w.id != v.id
      {
        assert w != v;
        assert SameRow(w, v) ==> w == v;
      }
    }
  }

  lemma PurgeKeepsNodes(s: State, n: NodeId)
    requires NodesOk(s.nodes, s.versions, s.usedNodes) && VersionsOk(s.versions, s.nextId)
    ensures NodesOk(DoPurge(s, n).nodes, DoPurge(s, n).versions, s.usedNodes)
  {
    var t := DoPurge(s, n);
    var gone := Subtree(s.parents, {n});
    if t != s {
      var drop := IdsUnder(s.versions, gone);
      WithoutIs(s.versions, drop);
      forall m | m in t.nodes
        ensures NodeOk(t.versions, m, t.nodes[m]) && m in s.usedNodes
      {
        assert NodeOk(s.versions, m, s.nodes[m]);
        CurrentOutside(s, gone, m);
        DropKeepsNode(s.versions, s.nextId, drop, m, s.nodes[m]);
      }
      forall v | v in t.versions
        ensures v.node in t.nodes && v.org == t.nodes[v.node].org
      {
        assert v in s.versions;
      }
    }
  }

  lemma StepKeepsNodes(quotas: Quotas, s: State, e: Event)
    requires NodesOk(s.nodes, s.versions, s.usedNodes) && VersionsOk(s.versions, s.nextId)
    ensures var t := Step(quotas, s, e); NodesOk(t.nodes, t.versions, t.usedNodes)
  {
    match e
    case Create(n, org, parent) =>
      if n !in s.usedNodes { CreateKeepsNodes(s.nodes, s.versions, s.usedNodes, n, Node(org, None, None, 1, false, false)); }
    case CommitTx(u) =>
      if u in s.uploads && s.uploads[u].phase == OrgLocked && s.uploads[u].node in s.nodes { CommitKeepsNodes(s, u); }
    case Purge(n) => PurgeKeepsNodes(s, n);
    case Retain(cutoff) => RetainKeepsNodes(s, cutoff);
    case _ => EditsKeepNodes(quotas, s, e);
  }

  lemma EditsKeepNodes(quotas: Quotas, s: State, e: Event)
    requires NodesOk(s.nodes, s.versions, s.usedNodes)
    requires !(e.Create? || e.CommitTx? || e.Purge? || e.Retain?)
    ensures var t := Step(quotas, s, e); NodesOk(t.nodes, t.versions, t.usedNodes)
  {
    match e
    case Trash(n) => if n in s.nodes { EditKeepsNodes(s.nodes, s.versions, s.usedNodes, n, s.nodes[n].(trashed := true)); }
    case Flag(n) => if n in s.nodes { EditKeepsNodes(s.nodes, s.versions, s.usedNodes, n, s.nodes[n].(rotationRequired := true)); }
    case Rotate(n) =>
      if n in s.nodes {
        EditKeepsNodes(s.nodes, s.versions, s.usedNodes, n, s.nodes[n].(epoch := s.nodes[n].epoch + 1, rotationRequired := false));
      }
    case _ => NodesUntouched(quotas, s, e);
  }

  lemma NodesUntouched(quotas: Quotas, s: State, e: Event)
    requires !(e.Create? || e.CommitTx? || e.Purge? || e.Retain? || e.Trash? || e.Flag? || e.Rotate?)
    ensures var t := Step(quotas, s, e); t.nodes == s.nodes && t.versions == s.versions && t.usedNodes == s.usedNodes
  {
  }

  // ---------------------------------------------------------------- locks

  predicate LocksHeld(s: State) {
    LocksOk(s.uploads, s.nodes, s.nodeLocks, s.orgLocks)
  }

  lemma FailKeepsLocks(s: State, u: UploadId)
    requires LocksHeld(s) && u in s.uploads
    ensures LocksHeld(Fail(s, u))
  {
    var t := Fail(s, u);
    forall w | w in t.uploads
      ensures HolderOk(t.uploads[w], w, t.nodes, t.nodeLocks, t.orgLocks)
    {
      assert HolderOk(s.uploads[w], w, s.nodes, s.nodeLocks, s.orgLocks);
    }
  }

  lemma LockNodeKeepsLocks(s: State, u: UploadId)
    requires LocksHeld(s) && u in s.uploads
    ensures LocksHeld(DoLockNode(s, u))
  {
    var t := DoLockNode(s, u);
    FailKeepsLocks(s, u);
    if t != s && t != Fail(s, u) {
      forall w | w in t.uploads
        ensures HolderOk(t.uploads[w], w, t.nodes, t.nodeLocks, t.orgLocks)
      {
        assert HolderOk(s.uploads[w], w, s.nodes, s.nodeLocks, s.orgLocks);
      }
    }
  }

  lemma LockOrgKeepsLocks(quotas: Quotas, s: State, u: UploadId)
    requires LocksHeld(s) && u in s.uploads
    ensures LocksHeld(DoLockOrg(quotas, s, u))
  {
    var t := DoLockOrg(quotas, s, u);
    FailKeepsLocks(s, u);
    if t != s && t != Fail(s, u) {
      forall w | w in t.uploads
        ensures HolderOk(t.uploads[w], w, t.nodes, t.nodeLocks, t.orgLocks)
      {
        assert HolderOk(s.uploads[w], w, s.nodes, s.nodeLocks, s.orgLocks);
      }
    }
  }

  lemma CommitKeepsLocks(s: State, u: UploadId)
    requires LocksHeld(s) && u in s.uploads && HoldsNode(s.uploads[u]) && s.uploads[u].node in s.nodes
    ensures LocksHeld(DoCommit(s, u))
  {
    var t := DoCommit(s, u);
    assert HolderOk(s.uploads[u], u, s.nodes, s.nodeLocks, s.orgLocks);
    forall w | w in t.uploads
      ensures HolderOk(t.uploads[w], w, t.nodes, t.nodeLocks, t.orgLocks)
    {
      assert HolderOk(s.uploads[w], w, s.nodes, s.nodeLocks, s.orgLocks);
    }
  }

  /** While a row is locked nobody else changes it or deletes it. */
  lemma NodesChangeKeepsLocks(s: State, nodes: Nodes)
    requires LocksHeld(s) && forall n :: n in s.nodes && n in s.nodeLocks ==> n in nodes && nodes[n] == s.nodes[n]
    ensures LocksOk(s.uploads, nodes, s.nodeLocks, s.orgLocks)
  {
    forall w | w in s.uploads
      ensures HolderOk(s.uploads[w], w, nodes, s.nodeLocks, s.orgLocks)
    {
      assert HolderOk(s.uploads[w], w, s.nodes, s.nodeLocks, s.orgLocks);
    }
  }

  lemma PhaseKeepsLocks(s: State, u: UploadId, up: Upload)
    requires LocksHeld(s) && !HoldsNode(up)
    ensures LocksOk(s.uploads[u := up], s.nodes, s.nodeLocks, s.orgLocks)
  {
    var uploads := s.uploads[u := up];
    forall w | w in uploads
      ensures HolderOk(uploads[w], w, s.nodes, s.nodeLocks, s.orgLocks)
    {
      assert w in s.uploads ==> HolderOk(s.uploads[w], w, s.nodes, s.nodeLocks, s.orgLocks);
    }
  }

  lemma StepKeepsLocks(quotas: Quotas, s: State, e: Event)
    requires LocksHeld(s)
    requires forall n :: n in s.nodes ==> n in s.usedNodes
    ensures LocksHeld(Step(quotas, s, e))
  {
    match e
    case Begin(u, n, key, size, base, at) => PhaseKeepsLocks(s, u, Upload(n, key, size, base, at, Streaming));
    case StreamDone(u) => if u in s.uploads { PhaseKeepsLocks(s, u, s.uploads[u].(phase := Stored)); }
    case LockNode(u) => if u in s.uploads { LockNodeKeepsLocks(s, u); }
    case LockOrg(u) => if u in s.uploads { LockOrgKeepsLocks(quotas, s, u); }
    case CommitTx(u) =>
      if u in s.uploads && s.uploads[u].phase == OrgLocked && s.uploads[u].node in s.nodes { CommitKeepsLocks(s, u); }
    case Abort(u) => if u in s.uploads { FailKeepsLocks(s, u); }
    case Crash =>
    case _ => TableKeepsLocks(quotas, s, e);
  }

  lemma TableKeepsLocks(quotas: Quotas, s: State, e: Event)
    requires LocksHeld(s) && forall n :: n in s.nodes ==> n in s.usedNodes
    requires e.Create? || e.Trash? || e.Flag? || e.Rotate? || e.Purge? || e.Retain? || e.DeleteBlob?
    ensures LocksHeld(Step(quotas, s, e))
  {
    NodesChangeKeepsLocks(s, Step(quotas, s, e).nodes);
  }

  // ---------------------------------------------------------------- quota

  lemma FewerFits(quotas: Quotas, s: State, nodes: Nodes, versions: seq<Version>)
    requires PromisesOk(quotas, s.uploads, s.nodes, s.versions)
    requires forall n :: n in nodes && n in s.nodes ==> nodes[n].org == s.nodes[n].org
    requires forall u :: u in s.uploads && s.uploads[u].phase == OrgLocked ==> s.uploads[u].node in s.nodes
    requires forall org :: Used(versions, org) <= Used(s.versions, org)
    ensures PromisesOk(quotas, s.uploads, nodes, versions)
  {
    forall u | u in s.uploads
      ensures Fits(quotas, s.uploads[u], nodes, versions)
    {
      assert Fits(quotas, s.uploads[u], s.nodes, s.versions);
    }
  }

  lemma FewerQuota(quotas: Quotas, versions: seq<Version>, drop: set<VersionId>)
    requires QuotaOk(quotas, versions)
    ensures QuotaOk(quotas, Without(versions, drop))
    ensures forall org :: Used(Without(versions, drop), org) <= Used(versions, org)
  {
    forall org
      ensures Used(Without(versions, drop), org) <= Used(versions, org)
    {
      WithoutUses(versions, drop, org);
    }
  }

  lemma ExclusiveOrg(s: State, u: UploadId, w: UploadId)
    requires LocksHeld(s) && u in s.uploads && w in s.uploads && u != w
    requires s.uploads[u].phase == OrgLocked && s.uploads[w].phase == OrgLocked
    ensures s.uploads[u].node in s.nodes && s.uploads[w].node in s.nodes
            && s.nodes[s.uploads[u].node].org != s.nodes[s.uploads[w].node].org
  {
    assert HolderOk(s.uploads[u], u, s.nodes, s.nodeLocks, s.orgLocks);
    assert HolderOk(s.uploads[w], w, s.nodes, s.nodeLocks, s.orgLocks);
  }

  /** Committing uses the room found under the organisation's lock, which nobody else holds. */
  lemma CommitKeepsQuota(quotas: Quotas, s: State, u: UploadId)
    requires LocksHeld(s) && QuotaOk(quotas, s.versions) && PromisesOk(quotas, s.uploads, s.nodes, s.versions)
    requires u in s.uploads && s.uploads[u].phase == OrgLocked && s.uploads[u].node in s.nodes
    ensures var t := DoCommit(s, u); QuotaOk(quotas, t.versions) && PromisesOk(quotas, t.uploads, t.nodes, t.versions)
  {
    var t := DoCommit(s, u);
    var v := t.versions[|s.versions|];
    assert Fits(quotas, s.uploads[u], s.nodes, s.versions);
    forall org
      ensures Used(t.versions, org) == Used(s.versions, org) + if v.org == org then v.size else 0
    {
      UsedOneMore(s.versions, v, org);
    }
    forall w | w in t.uploads
      ensures Fits(quotas, t.uploads[w], t.nodes, t.versions)
    {
      assert Fits(quotas, s.uploads[w], s.nodes, s.versions);
      if w != u && s.uploads[w].phase == OrgLocked {
        ExclusiveOrg(s, u, w);
      }
    }
  }

  lemma UploadFits(quotas: Quotas, s: State, u: UploadId, up: Upload)
    requires PromisesOk(quotas, s.uploads, s.nodes, s.versions) && Fits(quotas, up, s.nodes, s.versions)
    ensures PromisesOk(quotas, s.uploads[u := up], s.nodes, s.versions)
  {
    var uploads := s.uploads[u := up];
    forall w | w in uploads
      ensures Fits(quotas, uploads[w], s.nodes, s.versions)
    {
      assert w in s.uploads ==> Fits(quotas, s.uploads[w], s.nodes, s.versions);
    }
  }

  predicate IsUploadEvent(e: Event) {
    e.Begin? || e.StreamDone? || e.LockNode? || e.LockOrg? || e.CommitTx? || e.Abort?
  }

  lemma UploadKeepsQuota(quotas: Quotas, s: State, e: Event)
    requires LocksHeld(s) && QuotaOk(quotas, s.versions) && PromisesOk(quotas, s.uploads, s.nodes, s.versions)
    requires IsUploadEvent(e)
    ensures var t := Step(quotas, s, e); QuotaOk(quotas, t.versions) && PromisesOk(quotas, t.uploads, t.nodes, t.versions)
  {
    match e
    case Begin(u, n, key, size, base, at) => UploadFits(quotas, s, u, Upload(n, key, size, base, at, Streaming));
    case StreamDone(u) => if u in s.uploads { UploadFits(quotas, s, u, s.uploads[u].(phase := Stored)); }
    case LockNode(u) =>
      if u in s.uploads {
        UploadFits(quotas, s, u, s.uploads[u].(phase := Finished));
        UploadFits(quotas, s, u, s.uploads[u].(phase := NodeLocked));
      }
    case LockOrg(u) =>
      if u in s.uploads {
        UploadFits(quotas, s, u, s.uploads[u].(phase := Finished));
        if s.uploads[u].node in s.nodes && !OverQuota(quotas, s.versions, s.nodes[s.uploads[u].node].org, s.uploads[u].size) {
          UploadFits(quotas, s, u, s.uploads[u].(phase := OrgLocked));
        }
      }
    case CommitTx(u) =>
      if u in s.uploads && s.uploads[u].phase == OrgLocked && s.uploads[u].node in s.nodes { CommitKeepsQuota(quotas, s, u); }
    case Abort(u) => if u in s.uploads { UploadFits(quotas, s, u, s.uploads[u].(phase := Finished)); }
  }

  lemma StepKeepsQuota(quotas: Quotas, s: State, e: Event)
    requires LocksHeld(s) && QuotaOk(quotas, s.versions) && PromisesOk(quotas, s.uploads, s.nodes, s.versions)
    requires forall n :: n in s.nodes ==> n in s.usedNodes
    ensures var t := Step(quotas, s, e); QuotaOk(quotas, t.versions) && PromisesOk(quotas, t.uploads, t.nodes, t.versions)
  {
    if IsUploadEvent(e) {
      UploadKeepsQuota(quotas, s, e);
    } else {
      TableKeepsQuota(quotas, s, e);
    }
  }

  lemma TableKeepsQuota(quotas: Quotas, s: State, e: Event)
    requires LocksHeld(s) && QuotaOk(quotas, s.versions) && PromisesOk(quotas, s.uploads, s.nodes, s.versions)
    requires !IsUploadEvent(e) && forall n :: n in s.nodes ==> n in s.usedNodes
    ensures var t := Step(quotas, s, e); QuotaOk(quotas, t.versions) && PromisesOk(quotas, t.uploads, t.nodes, t.versions)
  {
    forall u | u in s.uploads && s.uploads[u].phase == OrgLocked
      ensures s.uploads[u].node in s.nodes
    {
      assert HolderOk(s.uploads[u], u, s.nodes, s.nodeLocks, s.orgLocks);
    }
    match e
    case Purge(n) => PurgeKeepsQuota(quotas, s, n);
    case Retain(cutoff) =>
      FewerQuota(quotas, s.versions, SweptIds(s.nodes, s.versions, cutoff));
      FewerFits(quotas, s, s.nodes, DoRetain(s, cutoff).versions);
    case Create(n, org, parent) =>
      if n !in s.usedNodes { FewerFits(quotas, s, s.nodes[n := Node(org, None, None, 1, false, false)], s.versions); }
    case DeleteBlob(_) =>
    case Crash => CrashKeepsQuota(quotas, s);
    case _ => EditsKeepQuota(quotas, s, e);
  }

  lemma EditsKeepQuota(quotas: Quotas, s: State, e: Event)
    requires QuotaOk(quotas, s.versions) && PromisesOk(quotas, s.uploads, s.nodes, s.versions)
    requires forall u :: u in s.uploads && s.uploads[u].phase == OrgLocked ==> s.uploads[u].node in s.nodes
    requires e.Trash? || e.Flag? || e.Rotate?
    ensures var t := Step(quotas, s, e); QuotaOk(quotas, t.versions) && PromisesOk(quotas, t.uploads, t.nodes, t.versions)
  {
    match e
    case Trash(n) => if n in s.nodes { FewerFits(quotas, s, s.nodes[n := s.nodes[n].(trashed := true)], s.versions); }
    case Flag(n) => if n in s.nodes { FewerFits(quotas, s, s.nodes[n := s.nodes[n].(rotationRequired := true)], s.versions); }
    case Rotate(n) =>
      if n in s.nodes {
        FewerFits(quotas, s, s.nodes[n := s.nodes[n].(epoch := s.nodes[n].epoch + 1, rotationRequired := false)], s.versions);
      }
  }

  lemma CrashKeepsQuota(quotas: Quotas, s: State)
    requires PromisesOk(quotas, s.uploads, s.nodes, s.versions)
    ensures PromisesOk(quotas, DoCrash(s).uploads, s.nodes, s.versions)
  {
  }

  lemma PurgeKeepsQuota(quotas: Quotas, s: State, n: NodeId)
    requires QuotaOk(quotas, s.versions) && PromisesOk(quotas, s.uploads, s.nodes, s.versions)
    requires forall u :: u in s.uploads && s.uploads[u].phase == OrgLocked ==> s.uploads[u].node in s.nodes
    ensures QuotaOk(quotas, DoPurge(s, n).versions) && PromisesOk(quotas, s.uploads, DoPurge(s, n).nodes, DoPurge(s, n).versions)
  {
    var gone := Subtree(s.parents, {n});
    FewerQuota(quotas, s.versions, IdsUnder(s.versions, gone));
    FewerFits(quotas, s, DoPurge(s, n).nodes, DoPurge(s, n).versions);
  }

  // ---------------------------------------------------------------- the chain of versions

  lemma LastCommitOneMore(commits: seq<Commit>, c: Commit, n: NodeId)
    ensures LastCommit(commits + [c], n) == if c.node == n then Some(c) else LastCommit(commits, n)
  {
    assert (commits + [c])[..|commits|] == commits;
  }

  lemma CommitKeepsChain(s: State, u: UploadId)
    requires CommitsOk(s.nodes, s.versions, s.commits, s.usedNodes) && u in s.uploads && s.uploads[u].node in s.nodes
    requires s.uploads[u].base.version == s.nodes[s.uploads[u].node].current
    ensures var t := DoCommit(s, u); CommitsOk(t.nodes, t.versions, t.commits, t.usedNodes)
  {
    var t := DoCommit(s, u);
    var v := t.versions[|s.versions|];
    var c := t.commits[|s.commits|];
    assert t.commits[..|s.commits|] == s.commits;
    assert TopIsLast(s.versions, s.commits, v.node, s.nodes[v.node].current);
    forall m | m in t.nodes
      ensures m in t.usedNodes && TopIsLast(t.versions, t.commits, m, t.nodes[m].current)
    {
      assert TopIsLast(s.versions, s.commits, m, s.nodes[m].current);
      LastCommitOneMore(s.commits, c, m);
      MaxNoOneMore(s.versions, v, m);
    }
  }

  lemma {:induction false} NoCommitYet(commits: seq<Commit>, n: NodeId)
    requires forall c :: c in commits ==> c.node != n
    ensures LastCommit(commits, n).None?
  {
    if |commits| > 0 {
      assert commits[|commits| - 1] in commits;
      NoCommitYet(commits[..|commits| - 1], n);
    }
  }

  lemma CreateKeepsChain(s: State, n: NodeId, node: Node)
    requires CommitsOk(s.nodes, s.versions, s.commits, s.usedNodes) && NodesOk(s.nodes, s.versions, s.usedNodes)
    requires n !in s.usedNodes && node.current.None?
    ensures CommitsOk(s.nodes[n := node], s.versions, s.commits, s.usedNodes + {n})
  {
    NoCommitYet(s.commits, n);
    MaxNoIsMax(s.versions, n);
    forall v | v in s.versions
      ensures v.node != n
    {
      assert v.node in s.nodes;
    }
  }

  /** Dropping versions that are nobody's current one leaves every next number as it was. */
  lemma DropKeepsChain(s: State, nodes: Nodes, drop: set<VersionId>)
    requires CommitsOk(s.nodes, s.versions, s.commits, s.usedNodes) && NodesOk(s.nodes, s.versions, s.usedNodes)
    requires forall n :: n in nodes ==> n in s.nodes && nodes[n].current == s.nodes[n].current
    requires forall n :: n in nodes && nodes[n].current.Some? ==> nodes[n].current.value !in drop
    ensures CommitsOk(nodes, Without(s.versions, drop), s.commits, s.usedNodes)
  {
    forall n | n in nodes
      ensures n in s.usedNodes && TopIsLast(Without(s.versions, drop), s.commits, n, nodes[n].current)
    {
      assert TopIsLast(s.versions, s.commits, n, s.nodes[n].current);
      assert NodeOk(s.versions, n, s.nodes[n]);
      DropKeepsNode(s.versions, s.nextId, drop, n, s.nodes[n]);
      if nodes[n].current.None? {
        WithoutIs(s.versions, drop);
        MaxNoIsMax(Without(s.versions, drop), n);
      }
    }
  }

  lemma PurgeKeepsChain(s: State, n: NodeId)
    requires CommitsOk(s.nodes, s.versions, s.commits, s.usedNodes) && NodesOk(s.nodes, s.versions, s.usedNodes)
    requires VersionsOk(s.versions, s.nextId)
    ensures var t := DoPurge(s, n); CommitsOk(t.nodes, t.versions, t.commits, t.usedNodes)
  {
    var t := DoPurge(s, n);
    var gone := Subtree(s.parents, {n});
    if t != s {
      forall m | m in t.nodes
        ensures m in s.nodes && (t.nodes[m].current.Some? ==> t.nodes[m].current.value !in IdsUnder(s.versions, gone))
      {
        CurrentOutside(s, gone, m);
      }
      DropKeepsChain(s, t.nodes, IdsUnder(s.versions, gone));
    }
  }

  lemma EditKeepsChain(s: State, n: NodeId, node: Node)
    requires CommitsOk(s.nodes, s.versions, s.commits, s.usedNodes) && n in s.nodes && SameContent(s.nodes[n], node)
    ensures CommitsOk(s.nodes[n := node], s.versions, s.commits, s.usedNodes)
  {
  }

  lemma UploadKeepsChain(quotas: Quotas, s: State, e: Event)
    requires CommitsOk(s.nodes, s.versions, s.commits, s.usedNodes) && LocksHeld(s) && IsUploadEvent(e)
    ensures var t := Step(quotas, s, e); CommitsOk(t.nodes, t.versions, t.commits, t.usedNodes)
  {
    if e.CommitTx? && e.upload in s.uploads && s.uploads[e.upload].phase == OrgLocked && s.uploads[e.upload].node in s.nodes {
      var u := e.upload;
      assert HolderOk(s.uploads[u], u, s.nodes, s.nodeLocks, s.orgLocks);
      CommitKeepsChain(s, u);
    } else {
      OnlyCommitsWrite(quotas, s, e);
    }
  }

  lemma OnlyCommitsWrite(quotas: Quotas, s: State, e: Event)
    requires IsUploadEvent(e)
    requires e.CommitTx? ==> !(e.upload in s.uploads && s.uploads[e.upload].phase == OrgLocked && s.uploads[e.upload].node in s.nodes)
    ensures var t := Step(quotas, s, e);
            t.nodes == s.nodes && t.versions == s.versions && t.commits == s.commits && t.usedNodes == s.usedNodes
  {
  }

  lemma StepKeepsChain(quotas: Quotas, s: State, e: Event)
    requires CommitsOk(s.nodes, s.versions, s.commits, s.usedNodes) && NodesOk(s.nodes, s.versions, s.usedNodes)
    requires VersionsOk(s.versions, s.nextId) && LocksHeld(s)
    ensures var t := Step(quotas, s, e); CommitsOk(t.nodes, t.versions, t.commits, t.usedNodes)
  {
    if IsUploadEvent(e) {
      UploadKeepsChain(quotas, s, e);
    } else {
      TableKeepsChain(quotas, s, e);
    }
  }

  lemma TableKeepsChain(quotas: Quotas, s: State, e: Event)
    requires CommitsOk(s.nodes, s.versions, s.commits, s.usedNodes) && NodesOk(s.nodes, s.versions, s.usedNodes)
    requires VersionsOk(s.versions, s.nextId) && !IsUploadEvent(e)
    ensures var t := Step(quotas, s, e); CommitsOk(t.nodes, t.versions, t.commits, t.usedNodes)
  {
    match e
    case Create(n, org, parent) => if n !in s.usedNodes { CreateKeepsChain(s, n, Node(org, None, None, 1, false, false)); }
    case Purge(n) => PurgeKeepsChain(s, n);
    case Retain(cutoff) => RetainKeepsChain(s, cutoff);
    case _ => EditsKeepChain(quotas, s, e);
  }

  lemma EditsKeepChain(quotas: Quotas, s: State, e: Event)
    requires CommitsOk(s.nodes, s.versions, s.commits, s.usedNodes)
    requires e.Trash? || e.Flag? || e.Rotate? || e.DeleteBlob? || e.Crash?
    ensures var t := Step(quotas, s, e); CommitsOk(t.nodes, t.versions, t.commits, t.usedNodes)
  {
    match e
    case Trash(n) => if n in s.nodes { EditKeepsChain(s, n, s.nodes[n].(trashed := true)); }
    case Flag(n) => if n in s.nodes { EditKeepsChain(s, n, s.nodes[n].(rotationRequired := true)); }
    case Rotate(n) => if n in s.nodes { EditKeepsChain(s, n, s.nodes[n].(epoch := s.nodes[n].epoch + 1, rotationRequired := false)); }
    case _ => OnlyEditsNodes(quotas, s, e);
  }

  lemma OnlyEditsNodes(quotas: Quotas, s: State, e: Event)
    requires e.DeleteBlob? || e.Crash?
    ensures var t := Step(quotas, s, e); t.nodes == s.nodes && t.versions == s.versions && t.commits == s.commits && t.usedNodes == s.usedNodes
  {
  }

  // ---------------------------------------------------------------- over whole runs

  predicate Inv(quotas: Quotas, s: State) {
    && KeysOk(s) && NodesOk(s.nodes, s.versions, s.usedNodes) && LocksHeld(s)
    && QuotaOk(quotas, s.versions) && PromisesOk(quotas, s.uploads, s.nodes, s.versions)
    && CommitsOk(s.nodes, s.versions, s.commits, s.usedNodes)
  }

  lemma StepKeeps(quotas: Quotas, s: State, e: Event)
    requires Inv(quotas, s)
    ensures Inv(quotas, Step(quotas, s, e))
  {
    StepKeepsKeys(quotas, s, e);
    StepKeepsNodes(quotas, s, e);
    StepKeepsLocks(quotas, s, e);
    StepKeepsQuota(quotas, s, e);
    StepKeepsChain(quotas, s, e);
  }

  lemma {:induction false} RunKeeps(quotas: Quotas, s: State, es: seq<Event>)
    requires Inv(quotas, s)
    ensures Inv(quotas, Run(quotas, s, es))
    decreases |es|
  {
    if |es| > 0 {
      StepKeeps(quotas, s, es[0]);
      RunKeeps(quotas, Step(quotas, s, es[0]), es[1..]);
    }
  }

  lemma EmptyOk(quotas: Quotas)
    ensures Inv(quotas, EMPTY)
  {
  }

  /** No dangling blob: after any run, stopped anywhere, every content_ref of a node or a version names
      a stored blob, and none that is about to be deleted. */
  lemma NoDanglingBlob(quotas: Quotas, es: seq<Event>)
    ensures var s := Run(quotas, EMPTY, es);
            && (forall v :: v in s.versions ==> v.ref in s.blobs && v.ref !in s.doomed)
            && (forall n :: n in s.nodes && s.nodes[n].contentRef.Some? ==>
                  s.nodes[n].contentRef.value in s.blobs && s.nodes[n].contentRef.value !in s.doomed)
  {
    EmptyOk(quotas);
    RunKeeps(quotas, EMPTY, es);
    var s := Run(quotas, EMPTY, es);
    forall n | n in s.nodes && s.nodes[n].contentRef.Some?
      ensures s.nodes[n].contentRef.value in s.blobs && s.nodes[n].contentRef.value !in s.doomed
    {
      assert NodeOk(s.versions, n, s.nodes[n]);
      var v :| v in s.versions && IsTop(s.versions, n, s.nodes[n], v);
    }
  }

  /** Whatever runs concurrently, an organisation never stores more than its quota. */
  lemma QuotaHolds(quotas: Quotas, es: seq<Event>, org: OrgId)
    requires org in quotas
    ensures Used(Run(quotas, EMPTY, es).versions, org) <= quotas[org]
  {
    EmptyOk(quotas);
    RunKeeps(quotas, EMPTY, es);
  }

  lemma {:induction false} LaterIsHigher(commits: seq<Commit>, i: nat)
    requires IsChain(commits) && i < |commits|
    ensures LastCommit(commits, commits[i].node).Some? && LastCommit(commits, commits[i].node).value.no >= commits[i].no
  {
    var n := |commits| - 1;
    if i < n {
      LaterIsHigher(commits[..n], i);
    }
  }

  lemma {:induction false} NumbersIncrease(commits: seq<Commit>, i: nat, j: nat)
    requires IsChain(commits) && i < j < |commits| && commits[i].node == commits[j].node
    ensures commits[i].no < commits[j].no
  {
    var n := |commits| - 1;
    if j < n {
      NumbersIncrease(commits[..n], i, j);
    } else {
      LaterIsHigher(commits[..n], i);
    }
  }

  /** No lost update: over any run the accepted writes of each node form one chain, each based on the
      one before it, with numbers that strictly increase, so that none is used twice. */
  lemma VersionsFormOneChain(quotas: Quotas, es: seq<Event>)
    ensures var commits := Run(quotas, EMPTY, es).commits;
            && IsChain(commits)
            && forall i, j :: 0 <= i < j < |commits| && commits[i].node == commits[j].node ==> commits[i].no < commits[j].no
  {
    EmptyOk(quotas);
    RunKeeps(quotas, EMPTY, es);
    var commits := Run(quotas, EMPTY, es).commits;
    forall i, j | 0 <= i < j < |commits| && commits[i].node == commits[j].node
      ensures commits[i].no < commits[j].no
    {
      NumbersIncrease(commits, i, j);
    }
  }

  lemma CommitNamedCurrent(s: State, u: UploadId)
    requires LocksHeld(s) && u in s.uploads && s.uploads[u].phase == OrgLocked && s.uploads[u].node in s.nodes
    ensures var n := s.nodes[s.uploads[u].node];
            && s.uploads[u].base == ContentBase(n.current, n.epoch) && !n.rotationRequired
            && DoCommit(s, u).versions[|s.versions|].epoch == s.uploads[u].base.epoch
  {
    assert HolderOk(s.uploads[u], u, s.nodes, s.nodeLocks, s.orgLocks);
  }

  /** A write is accepted only if it named exactly the version and epoch current at that moment, and
      the version it creates is marked with that epoch. */
  lemma AcceptedNamedCurrent(quotas: Quotas, es: seq<Event>, u: UploadId)
    ensures var s := Run(quotas, EMPTY, es);
            var t := Step(quotas, s, CommitTx(u));
            t.commits != s.commits ==>
              && u in s.uploads && s.uploads[u].node in s.nodes && |t.versions| == |s.versions| + 1
              && var n := s.nodes[s.uploads[u].node];
                 s.uploads[u].base == ContentBase(n.current, n.epoch) && !n.rotationRequired
                 && t.versions[|s.versions|].epoch == n.epoch
  {
    EmptyOk(quotas);
    RunKeeps(quotas, EMPTY, es);
    var s := Run(quotas, EMPTY, es);
    if u in s.uploads && s.uploads[u].phase == OrgLocked && s.uploads[u].node in s.nodes {
      CommitNamedCurrent(s, u);
    }
  }
}
