/**
 Bytes kept and bytes counted (server/src/routes/nodes.ts PUT content, server/src/lib/housekeeping.ts):
 the quota speaks of what was streamed, an upload that nobody disturbs is stored exactly when it may be,
 and no blob is kept for nothing.
 */
module UploadBytes {
  import opened Prelude
  import opened Forest
  import opened Preconditions
  import opened Uploads
  import opened UploadSafety

  // ---------------------------------------------------------------- what was streamed

  /** Only the begin of an upload streams, what it says, under a key never used before. */
  lemma StreamedOnce(quotas: Quotas, s: State, e: Event)
    ensures forall key :: key in Step(quotas, s, e).streamed ==>
              || (key in s.streamed && Step(quotas, s, e).streamed[key] == s.streamed[key])
              || (e.Begin? && e.key == key && key !in s.usedKeys && Step(quotas, s, e).streamed[key] == Content(e.node, e.size, e.at))
    ensures s.streamed.Keys <= s.usedKeys ==> s.streamed.Keys <= Step(quotas, s, e).streamed.Keys <= Step(quotas, s, e).usedKeys
  {
  }

  predicate IsContent(streamed: map<Key, Content>, key: Key, c: Content) {
    key in streamed && streamed[key] == c
  }

  /** Uploads and versions carry what was streamed under their key. */
  predicate AsStreamed(s: State) {
    && s.streamed.Keys <= s.usedKeys
    && (forall u | u in s.uploads :: IsContent(s.streamed, s.uploads[u].key, Content(s.uploads[u].node, s.uploads[u].size, s.uploads[u].at)))
    && (forall v | v in s.versions :: IsContent(s.streamed, v.ref, Content(v.node, v.size, v.createdAt)))
  }

  lemma CommitAsStreamed(s: State, u: UploadId)
    requires AsStreamed(s) && u in s.uploads && s.uploads[u].node in s.nodes
    ensures AsStreamed(DoCommit(s, u))
  {
  }

  lemma UploadAsStreamed(quotas: Quotas, s: State, e: Event)
    requires AsStreamed(s) && IsUploadEvent(e)
    ensures AsStreamed(Step(quotas, s, e))
  {
    match e
    case CommitTx(u) => if u in s.uploads && s.uploads[u].node in s.nodes { CommitAsStreamed(s, u); }
    case LockNode(u) => if u in s.uploads { LocksAsStreamed(quotas, s, u); }
    case LockOrg(u) => if u in s.uploads { LocksAsStreamed(quotas, s, u); }
    case _ =>
  }

  lemma LocksAsStreamed(quotas: Quotas, s: State, u: UploadId)
    requires AsStreamed(s) && u in s.uploads
    ensures AsStreamed(DoLockNode(s, u)) && AsStreamed(DoLockOrg(quotas, s, u))
  {
  }

  lemma StepAsStreamed(quotas: Quotas, s: State, e: Event)
    requires AsStreamed(s)
    ensures AsStreamed(Step(quotas, s, e))
  {
    if IsUploadEvent(e) {
      UploadAsStreamed(quotas, s, e);
    } else {
      match e
      case Purge(n) => WithoutIs(s.versions, IdsUnder(s.versions, Subtree(s.parents, {n})));
      case Retain(cutoff) => WithoutIs(s.versions, SweptIds(s.nodes, s.versions, cutoff));
      case _ =>
    }
  }

  lemma {:induction false} RunAsStreamed(quotas: Quotas, s: State, es: seq<Event>)
    requires AsStreamed(s)
    ensures AsStreamed(Run(quotas, s, es))
    decreases |es|
  {
    if |es| > 0 {
      StepAsStreamed(quotas, s, es[0]);
      RunAsStreamed(quotas, Step(quotas, s, es[0]), es[1..]);
    }
  }

  /** The bytes streamed into the blobs of an organisation's versions. */
  function StreamedBytes(streamed: map<Key, Content>, versions: seq<Version>, org: OrgId): nat {
    if |versions| == 0 then 0
    else
      var v := versions[|versions| - 1];
      StreamedBytes(streamed, versions[..|versions| - 1], org)
      + if v.org == org && v.ref in streamed then streamed[v.ref].size else 0
  }

  lemma {:induction false} UsedIsStreamed(streamed: map<Key, Content>, versions: seq<Version>, org: OrgId)
    requires forall v :: v in versions ==> IsContent(streamed, v.ref, Content(v.node, v.size, v.createdAt))
    ensures Used(versions, org) == StreamedBytes(streamed, versions, org)
  {
    if |versions| > 0 {
      assert versions[|versions| - 1] in versions;
      UsedIsStreamed(streamed, versions[..|versions| - 1], org);
    }
  }

  /** Whatever runs concurrently and wherever the server stops: every version says what was streamed into
      its blob, no two share one, and the bytes streamed into those an organisation keeps are within its quota. */
  lemma StreamedWithinQuota(quotas: Quotas, es: seq<Event>, org: OrgId)
    ensures var s := Run(quotas, EMPTY, es);
            && (forall v :: v in s.versions ==>
                  (v.ref in s.streamed && s.streamed[v.ref] == Content(v.node, v.size, v.createdAt)
                   && v.node in s.nodes && v.org == s.nodes[v.node].org))
            && (forall v, w :: v in s.versions && w in s.versions && v.ref == w.ref ==> v == w)
            && (org in quotas ==> StreamedBytes(s.streamed, s.versions, org) <= quotas[org])
  {
    EmptyOk(quotas);
    RunKeeps(quotas, EMPTY, es);
    RunAsStreamed(quotas, EMPTY, es);
    var s := Run(quotas, EMPTY, es);
    NoSharedBlob(s.versions, s.nextId);
    UsedIsStreamed(s.streamed, s.versions, org);
  }

  lemma NoSharedBlob(versions: seq<Version>, nextId: VersionId)
    requires VersionsOk(versions, nextId)
    ensures forall v, w :: v in versions && w in versions && v.ref == w.ref ==> v == w
  {
    forall v, w | v in versions && w in versions && v.ref == w.ref
      ensures v == w
    {
      assert SameRow(v, w);
    }
  }

  // ---------------------------------------------------------------- what a commit uses

  /** A commit adds one version, uses the size of the upload in the node's organisation, and nothing in others. */
  lemma CommitUses(quotas: Quotas, s: State, u: UploadId, org: OrgId)
    requires u in s.uploads && s.uploads[u].phase == OrgLocked && s.uploads[u].node in s.nodes
    ensures var t := Step(quotas, s, CommitTx(u));
            && Used(t.versions, org) == Used(s.versions, org) + (if org == s.nodes[s.uploads[u].node].org then s.uploads[u].size else 0)
            && |t.versions| == |s.versions| + 1 && t.versions[..|s.versions|] == s.versions
  {
    var t := Step(quotas, s, CommitTx(u));
    UsedOneMore(s.versions, t.versions[|s.versions|], org);
  }

  /** The steps of an upload with nobody in between. */
  function Alone(u: UploadId, n: NodeId, key: Key, size: nat, base: ContentBase, at: nat): seq<Event> {
    [Begin(u, n, key, size, base, at), StreamDone(u), LockNode(u), LockOrg(u), CommitTx(u)]
  }

  lemma RunOne(quotas: Quotas, s: State, e: Event, es: seq<Event>)
    ensures Run(quotas, s, [e] + es) == Run(quotas, Step(quotas, s, e), es)
  {
    assert ([e] + es)[1..] == es;
  }

  /** An upload may be stored: its base is the current one, no rotation is due, and it fits. */
  predicate MayStore(quotas: Quotas, s: State, n: NodeId, size: nat, base: ContentBase) {
    && n in s.nodes && base.version == s.nodes[n].current && base.epoch == s.nodes[n].epoch && !s.nodes[n].rotationRequired
    && (s.nodes[n].org in quotas ==> Used(s.versions, s.nodes[n].org) + size <= quotas[s.nodes[n].org])
  }

  predicate BaseIsCurrent(s: State, n: NodeId, base: ContentBase) {
    n in s.nodes && base.version == s.nodes[n].current && base.epoch == s.nodes[n].epoch && !s.nodes[n].rotationRequired
  }

  /** The tables of rows are as they were. */
  predicate SameRows(s: State, t: State) {
    t.versions == s.versions && t.nodes == s.nodes && t.nextId == s.nextId
  }

  /** Streamed, with no row changed and no lock taken. */
  predicate IsStreamed(s: State, t: State, u: UploadId, up: Upload) {
    && SameRows(s, t) && u in t.uploads && t.uploads[u] == up && t.nodeLocks == s.nodeLocks && t.orgLocks == s.orgLocks
    && up.key in t.blobs && t.doomed == s.doomed
  }

  lemma AloneStreams(quotas: Quotas, s: State, u: UploadId, n: NodeId, key: Key, size: nat, base: ContentBase, at: nat)
    requires u !in s.uploads && key !in s.usedKeys
    ensures var t := Step(quotas, Step(quotas, s, Begin(u, n, key, size, base, at)), StreamDone(u));
            IsStreamed(s, t, u, Upload(n, key, size, base, at, Stored))
  {
  }

  /** Refused: no row changed, and its blob is to be deleted. */
  predicate IsRefused(s: State, t: State, u: UploadId, key: Key) {
    SameRows(s, t) && u in t.uploads && t.uploads[u].phase == Finished && key in t.blobs && key in t.doomed
  }

  lemma AloneLocksNode(quotas: Quotas, s: State, s2: State, u: UploadId, up: Upload)
    requires IsStreamed(s, s2, u, up) && up.phase == Stored && up.node !in s.nodeLocks
    ensures var t := Step(quotas, s2, LockNode(u));
            if BaseIsCurrent(s, up.node, up.base)
            then SameRows(s, t) && t.orgLocks == s.orgLocks && t.doomed == s.doomed && up.key in t.blobs
                 && u in t.uploads && t.uploads[u] == up.(phase := NodeLocked)
            else IsRefused(s, t, u, up.key)
  {
  }

  lemma AloneLocksOrg(quotas: Quotas, s: State, s3: State, u: UploadId, up: Upload)
    requires SameRows(s, s3) && s3.orgLocks == s.orgLocks && s3.doomed == s.doomed && up.key in s3.blobs
    requires up.phase == NodeLocked && up.node in s.nodes && s.nodes[up.node].org !in s.orgLocks && u in s3.uploads && s3.uploads[u] == up
    ensures var t := Step(quotas, s3, LockOrg(u));
            if s.nodes[up.node].org in quotas ==> Used(s.versions, s.nodes[up.node].org) + up.size <= quotas[s.nodes[up.node].org]
            then SameRows(s, t) && t.doomed == s.doomed && up.key in t.blobs && u in t.uploads && t.uploads[u] == up.(phase := OrgLocked)
            else IsRefused(s, t, u, up.key)
  {
  }

  lemma RefusedStays(quotas: Quotas, s: State, t: State, u: UploadId, key: Key)
    requires IsRefused(s, t, u, key)
    ensures Step(quotas, t, LockOrg(u)) == t && Step(quotas, t, CommitTx(u)) == t
  {
  }

  /** Stored: one more row, which the node names, and nothing to delete. */
  predicate IsStored(s: State, t: State, up: Upload)
    requires up.node in s.nodes
  {
    && |t.versions| == |s.versions| + 1 && t.versions[..|s.versions|] == s.versions
    && up.node in t.nodes && t.nodes[up.node].contentRef == Some(up.key) && t.nodes[up.node].current == Some(t.versions[|s.versions|].id)
    && t.versions[|s.versions|] == Version(s.nextId, up.node, s.nodes[up.node].org, MaxNo(s.versions, up.node) + 1, up.key, up.size,
                                           s.nodes[up.node].epoch, up.at)
    && up.key in t.blobs && t.doomed == s.doomed
  }

  lemma AloneCommits(quotas: Quotas, s: State, s4: State, u: UploadId, up: Upload)
    requires SameRows(s, s4) && s4.doomed == s.doomed && up.key in s4.blobs && up.node in s.nodes
    requires u in s4.uploads && s4.uploads[u] == up && up.phase == OrgLocked
    ensures IsStored(s, Step(quotas, s4, CommitTx(u)), up)
  {
  }

  /** An undisturbed upload is stored exactly when it may be: then its blob is the node's content, under the
      next number and the node's epoch; otherwise no row changes and its blob is to be deleted. */
  lemma StoredIff(quotas: Quotas, s: State, u: UploadId, n: NodeId, key: Key, size: nat, base: ContentBase, at: nat)
    requires u !in s.uploads && key !in s.usedKeys && n !in s.nodeLocks && (n in s.nodes ==> s.nodes[n].org !in s.orgLocks)
    ensures var t := Run(quotas, s, Alone(u, n, key, size, base, at));
            if MayStore(quotas, s, n, size, base) then IsStored(s, t, Upload(n, key, size, base, at, OrgLocked)) else IsRefused(s, t, u, key)
  {
    var s1 := Step(quotas, s, Begin(u, n, key, size, base, at));
    var s2 := Step(quotas, s1, StreamDone(u));
    var s3 := Step(quotas, s2, LockNode(u));
    var s4 := Step(quotas, s3, LockOrg(u));
    RunAlone(quotas, s, u, n, key, size, base, at);
    AloneStreams(quotas, s, u, n, key, size, base, at);
    AloneLocksNode(quotas, s, s2, u, Upload(n, key, size, base, at, Stored));
    if !BaseIsCurrent(s, n, base) {
      RefusedStays(quotas, s, s3, u, key);
    } else {
      AloneLocksOrg(quotas, s, s3, u, Upload(n, key, size, base, at, NodeLocked));
      if MayStore(quotas, s, n, size, base) {
        AloneCommits(quotas, s, s4, u, Upload(n, key, size, base, at, OrgLocked));
      } else {
        RefusedStays(quotas, s, s4, u, key);
      }
    }
  }

  lemma RunAlone(quotas: Quotas, s: State, u: UploadId, n: NodeId, key: Key, size: nat, base: ContentBase, at: nat)
    ensures var s2 := Step(quotas, Step(quotas, s, Begin(u, n, key, size, base, at)), StreamDone(u));
            Run(quotas, s, Alone(u, n, key, size, base, at)) == Step(quotas, Step(quotas, Step(quotas, s2, LockNode(u)), LockOrg(u)), CommitTx(u))
  {
    var s1 := Step(quotas, s, Begin(u, n, key, size, base, at));
    var s2 := Step(quotas, s1, StreamDone(u));
    var s3 := Step(quotas, s2, LockNode(u));
    assert Alone(u, n, key, size, base, at) == [Begin(u, n, key, size, base, at)] + [StreamDone(u), LockNode(u), LockOrg(u), CommitTx(u)];
    assert [StreamDone(u), LockNode(u), LockOrg(u), CommitTx(u)] == [StreamDone(u)] + [LockNode(u), LockOrg(u), CommitTx(u)];
    assert [LockNode(u), LockOrg(u), CommitTx(u)] == [LockNode(u)] + [LockOrg(u), CommitTx(u)];
    assert [LockOrg(u), CommitTx(u)] == [LockOrg(u)] + [CommitTx(u)];
    RunOne(quotas, s, Begin(u, n, key, size, base, at), [StreamDone(u), LockNode(u), LockOrg(u), CommitTx(u)]);
    RunOne(quotas, s1, StreamDone(u), [LockNode(u), LockOrg(u), CommitTx(u)]);
    RunOne(quotas, s2, LockNode(u), [LockOrg(u), CommitTx(u)]);
    RunOne(quotas, s3, LockOrg(u), [CommitTx(u)]);
    assert [CommitTx(u)] == [CommitTx(u)] + [];
    RunOne(quotas, Step(quotas, s3, LockOrg(u)), CommitTx(u), []);
  }

  // ---------------------------------------------------------------- no blob for nothing

  predicate Kept(s: State, key: Key) {
    || (exists v | v in s.versions :: v.ref == key)
    || key in s.doomed
    || (exists u | u in s.uploads :: IsActive(s.uploads[u]) && s.uploads[u].key == key)
  }

  /** Every stored blob is named by a version, about to be deleted, or of an upload under way. */
  predicate NoOrphan(s: State) {
    forall key | key in s.blobs :: Kept(s, key)
  }

  lemma DropKeepsKept(s: State, t: State, drop: set<VersionId>, refs: set<Key>)
    requires NoOrphan(s) && t.versions == Without(s.versions, drop) && t.doomed == s.doomed + refs
    requires t.blobs == s.blobs && t.uploads == s.uploads && RefsOf(s.versions, drop) <= refs
    ensures NoOrphan(t)
  {
    WithoutIs(s.versions, drop);
    forall key | key in t.blobs
      ensures Kept(t, key)
    {
      assert Kept(s, key);
      if v :| v in s.versions && v.ref == key {
        assert v.id !in drop ==> v in t.versions;
      }
    }
  }

  lemma PurgedRefs(s: State, n: NodeId)
    requires VersionsOk(s.versions, s.nextId)
    ensures var gone := Subtree(s.parents, {n});
            RefsOf(s.versions, IdsUnder(s.versions, gone)) <= BlobRefs(s.nodes, s.versions, gone)
  {
    var gone := Subtree(s.parents, {n});
    forall v, w | v in s.versions && w in s.versions && w.node in gone && v.id == w.id
      ensures v == w
    {
      assert SameRow(v, w);
    }
  }

  lemma CommitKeepsKept(s: State, u: UploadId)
    requires NoOrphan(s) && u in s.uploads && s.uploads[u].node in s.nodes
    ensures NoOrphan(DoCommit(s, u))
  {
    var t := DoCommit(s, u);
    forall key | key in t.blobs
      ensures Kept(t, key)
    {
      assert Kept(s, key);
      if w :| w in s.uploads && IsActive(s.uploads[w]) && s.uploads[w].key == key {
        assert w != u ==> w in t.uploads && t.uploads[w] == s.uploads[w];
        assert w == u ==> t.versions[|s.versions|] in t.versions;
      }
      if v :| v in s.versions && v.ref == key {
        assert v in t.versions;
      }
    }
  }

  /** A state that keeps the versions, and every upload as it was but one. */
  lemma OneUploadKeepsKept(s: State, t: State, u: UploadId)
    requires NoOrphan(s) && t.versions == s.versions && s.doomed <= t.doomed && t.blobs <= s.blobs
    requires u in t.uploads && forall w :: w in s.uploads && w != u ==> w in t.uploads && t.uploads[w] == s.uploads[w]
    requires u in s.uploads && t.uploads[u].key == s.uploads[u].key && (IsActive(t.uploads[u]) || s.uploads[u].key in t.doomed || !IsActive(s.uploads[u]))
    ensures NoOrphan(t)
  {
    forall key | key in t.blobs
      ensures Kept(t, key)
    {
      assert Kept(s, key);
      if w :| w in s.uploads && IsActive(s.uploads[w]) && s.uploads[w].key == key {
        assert w != u ==> w in t.uploads && IsActive(t.uploads[w]);
        assert w == u ==> IsActive(t.uploads[u]) || key in t.doomed;
      }
    }
  }

  lemma BeginKeepsKept(quotas: Quotas, s: State, e: Event)
    requires NoOrphan(s) && e.Begin?
    ensures NoOrphan(Step(quotas, s, e))
  {
    var t := Step(quotas, s, e);
    if t != s {
      forall key | key in t.blobs
        ensures Kept(t, key)
      {
        if key == e.key {
          assert e.upload in t.uploads && IsActive(t.uploads[e.upload]);
        } else {
          assert Kept(s, key);
          if w :| w in s.uploads && IsActive(s.uploads[w]) && s.uploads[w].key == key {
            assert w in t.uploads && t.uploads[w] == s.uploads[w];
          }
        }
      }
    }
  }

  lemma UploadKeepsKept(quotas: Quotas, s: State, e: Event)
    requires NoOrphan(s) && IsUploadEvent(e)
    ensures NoOrphan(Step(quotas, s, e))
  {
    match e
    case Begin(_, _, _, _, _, _) => BeginKeepsKept(quotas, s, e);
    case CommitTx(u) => if u in s.uploads && s.uploads[u].node in s.nodes { CommitKeepsKept(s, u); }
    case StreamDone(u) => if u in s.uploads { PhaseKeepsKept(quotas, s, e, u); }
    case LockNode(u) => if u in s.uploads { LockNodeKeepsKept(quotas, s, u); }
    case LockOrg(u) => if u in s.uploads { LockOrgKeepsKept(quotas, s, u); }
    case Abort(u) => if u in s.uploads { PhaseKeepsKept(quotas, s, e, u); }
  }

  lemma PhaseKeepsKept(quotas: Quotas, s: State, e: Event, u: UploadId)
    requires NoOrphan(s) && u in s.uploads && (e == StreamDone(u) || e == Abort(u))
    ensures NoOrphan(Step(quotas, s, e))
  {
    OneUploadKeepsKept(s, Step(quotas, s, e), u);
  }

  lemma LockNodeKeepsKept(quotas: Quotas, s: State, u: UploadId)
    requires NoOrphan(s) && u in s.uploads
    ensures NoOrphan(Step(quotas, s, LockNode(u)))
  {
    OneUploadKeepsKept(s, Step(quotas, s, LockNode(u)), u);
  }

  lemma LockOrgKeepsKept(quotas: Quotas, s: State, u: UploadId)
    requires NoOrphan(s) && u in s.uploads
    ensures NoOrphan(Step(quotas, s, LockOrg(u)))
  {
    OneUploadKeepsKept(s, Step(quotas, s, LockOrg(u)), u);
  }

  lemma StepKeepsKept(quotas: Quotas, s: State, e: Event)
    requires VersionsOk(s.versions, s.nextId) && NoOrphan(s) && !e.Crash?
    ensures NoOrphan(Step(quotas, s, e))
  {
    if IsUploadEvent(e) {
      UploadKeepsKept(quotas, s, e);
    } else {
      TableKeepsKept(quotas, s, e);
    }
  }

  lemma TableKeepsKept(quotas: Quotas, s: State, e: Event)
    requires VersionsOk(s.versions, s.nextId) && NoOrphan(s) && !e.Crash? && !IsUploadEvent(e)
    ensures NoOrphan(Step(quotas, s, e))
  {
    var t := Step(quotas, s, e);
    match e
    case Purge(n) =>
      if t != s {
        PurgedRefs(s, n);
        var gone := Subtree(s.parents, {n});
        DropKeepsKept(s, t, IdsUnder(s.versions, gone), BlobRefs(s.nodes, s.versions, gone));
      }
    case Retain(cutoff) =>
      var ids := SweptIds(s.nodes, s.versions, cutoff);
      DropKeepsKept(s, t, ids, RefsOf(s.versions, ids));
    case Create(_, _, _) => QuietKeepsKept(s, t);
    case Trash(_) => QuietKeepsKept(s, t);
    case Flag(_) => QuietKeepsKept(s, t);
    case Rotate(_) => QuietKeepsKept(s, t);
    case DeleteBlob(_) => QuietKeepsKept(s, t);
  }

  lemma QuietKeepsKept(s: State, t: State)
    requires NoOrphan(s) && t.versions == s.versions && t.uploads == s.uploads
    requires t.blobs <= s.blobs && forall key :: key in t.blobs && key in s.doomed ==> key in t.doomed
    ensures NoOrphan(t)
  {
    forall key | key in t.blobs
      ensures Kept(t, key)
    {
      assert Kept(s, key);
    }
  }

  lemma {:induction false} RunKeepsKept(quotas: Quotas, s: State, es: seq<Event>)
    requires Inv(quotas, s) && NoOrphan(s) && forall e :: e in es ==> !e.Crash?
    ensures NoOrphan(Run(quotas, s, es))
    decreases |es|
  {
    if |es| > 0 {
      assert es[0] in es;
      StepKeeps(quotas, s, es[0]);
      StepKeepsKept(quotas, s, es[0]);
      RunKeepsKept(quotas, Step(quotas, s, es[0]), es[1..]);
    }
  }

  /** As long as the server does not stop, what is stored is what is named: once no upload is under way and
      what was doomed is deleted, the stored blobs are exactly those of the versions. */
  lemma StorageIsExact(quotas: Quotas, es: seq<Event>)
    requires forall e :: e in es ==> !e.Crash?
    requires var s := Run(quotas, EMPTY, es); s.doomed == {} && forall u :: u in s.uploads ==> s.uploads[u].phase == Finished
    ensures var s := Run(quotas, EMPTY, es); s.blobs == set v | v in s.versions :: v.ref
  {
    EmptyOk(quotas);
    RunKeepsKept(quotas, EMPTY, es);
    NoDanglingBlob(quotas, es);
    var s := Run(quotas, EMPTY, es);
    forall key | key in s.blobs
      ensures exists v :: v in s.versions && v.ref == key
    {
      assert Kept(s, key);
    }
  }

  /** A stop is what can leave an orphan: an upload under way when the server stops leaves its blob behind. */
  lemma CrashLeavesOrphan(quotas: Quotas, n: NodeId, base: ContentBase)
    ensures var s := Run(quotas, EMPTY, [Begin(0, n, 7, 100, base, 1), Crash]);
            7 in s.blobs && s.versions == [] && s.doomed == {} && !NoOrphan(s)
  {
    var b := Begin(0, n, 7, 100, base, 1);
    assert [b, Crash][1..] == [Crash];
    var s := Step(quotas, Step(quotas, EMPTY, b), Crash);
    assert Run(quotas, Step(quotas, EMPTY, b), [Crash]) == s;
    assert !Kept(s, 7);
  }

  // ---------------------------------------------------------------- what deletions delete

  /** A purge of a trashed node no write of which is under way takes its subtree and all its versions,
      dooms their blobs and no others, and leaves every other row as it was. */
  lemma PurgeDoes(quotas: Quotas, s: State, n: NodeId)
    requires n in s.nodes && s.nodes[n].trashed && NodesOk(s.nodes, s.versions, s.usedNodes) && VersionsOk(s.versions, s.nextId)
    requires forall m :: m in Subtree(s.parents, {n}) ==> m !in s.nodeLocks
    ensures var t, gone := Step(quotas, s, Purge(n)), Subtree(s.parents, {n});
            && (forall m :: m in t.nodes <==> m in s.nodes && m !in gone) && (forall m :: m in t.nodes ==> t.nodes[m] == s.nodes[m])
            && (forall v :: v in t.versions <==> v in s.versions && v.node !in gone)
            && (forall key :: key in t.doomed <==> key in s.doomed || exists v :: v in s.versions && v.node in gone && v.ref == key)
            && t.blobs == s.blobs && t.uploads == s.uploads
  {
    var gone := Subtree(s.parents, {n});
    WithoutIs(s.versions, IdsUnder(s.versions, gone));
    CollectedRefs(s.nodes, s.versions, s.usedNodes, gone);
    IdsUnique(s.versions, s.nextId);
    assert gone !! s.nodeLocks.Keys;
  }

  lemma IdsUnique(versions: seq<Version>, nextId: VersionId)
    requires VersionsOk(versions, nextId)
    ensures forall v, w :: v in versions && w in versions && v.id == w.id ==> v == w
  {
    forall v, w | v in versions && w in versions && v.id == w.id
      ensures v == w
    {
      assert SameRow(v, w);
    }
  }

  /** A sweep deletes the versions it takes and dooms their blobs; with fewer expired than a batch holds it
      takes every one of them. */
  lemma RetainDoes(quotas: Quotas, s: State, cutoff: nat)
    requires VersionsOk(s.versions, s.nextId)
    ensures var t, taken := Step(quotas, s, Retain(cutoff)), Swept(s.nodes, s.versions, cutoff);
            && (forall v :: v in t.versions <==> v in s.versions && v !in taken)
            && (forall key :: key in t.doomed <==> key in s.doomed || exists v :: v in taken && v.ref == key)
            && t.nodes == s.nodes && t.blobs == s.blobs && t.uploads == s.uploads
            && (|taken| < VERSION_PURGE_BATCH_LIMIT ==>
                  forall v :: v in s.versions && v.node in s.nodes && v.createdAt < cutoff && s.nodes[v.node].current != Some(v.id) ==> v !in t.versions)
  {
    var taken := Swept(s.nodes, s.versions, cutoff);
    WithoutIs(s.versions, SweptIds(s.nodes, s.versions, cutoff));
    SweepTakesOldest(s.nodes, s.versions, cutoff);
    IdsUnique(s.versions, s.nextId);
    if |taken| < VERSION_PURGE_BATCH_LIMIT {
      SmallSweepTakesAll(s.nodes, s.versions, cutoff);
    }
  }

  lemma SmallSweepTakesAll(nodes: Nodes, versions: seq<Version>, cutoff: nat)
    requires |Swept(nodes, versions, cutoff)| < VERSION_PURGE_BATCH_LIMIT
    ensures forall v :: v in versions && IsExpired(nodes, v, cutoff) ==> v in Swept(nodes, versions, cutoff)
  {
    AllExpiredIs(nodes, versions, cutoff);
    ByAgeIs(AllExpired(nodes, versions, cutoff));
  }

  /** An upload given up dooms its blob, frees its locks and nobody else's, and changes no row; a doomed
      blob, and no other, can be deleted. */
  lemma AbortDoes(quotas: Quotas, s: State, u: UploadId)
    requires u in s.uploads && IsActive(s.uploads[u])
    ensures var t := Step(quotas, s, Abort(u));
            && SameRows(s, t) && s.uploads[u].key in t.doomed && t.doomed == s.doomed + {s.uploads[u].key} && t.blobs == s.blobs
            && u in t.uploads && t.uploads[u].phase == Finished
            && (forall n :: n in t.nodeLocks <==> n in s.nodeLocks && s.nodeLocks[n] != u)
            && (forall o :: o in t.orgLocks <==> o in s.orgLocks && s.orgLocks[o] != u)
  {
  }

  lemma DeletionDoes(quotas: Quotas, s: State, key: Key)
    ensures Step(quotas, s, DeleteBlob(key)).blobs == if key in s.doomed then s.blobs - {key} else s.blobs
    ensures Step(quotas, s, DeleteBlob(key)).doomed == s.doomed - {key} && SameRows(s, Step(quotas, s, DeleteBlob(key)))
  {
  }
}
