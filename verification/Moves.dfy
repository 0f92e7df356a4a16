/**
 What a move does to people's access (PATCH /:id with a parentId, server/src/routes/nodes.ts): which
 permissions remain in the moved subtree, and what those who lose theirs can still read.
 */
module Moves {
  import opened Prelude
  import opened Forest
  import opened KeyGraph
  import opened DriveModel
  import opened DriveInvariant
  import opened Access
  import opened Revocation

  // ---------------------------------------------------------------- permissions

  /** A direct grant of p on m made within the subtree of top. */
  ghost predicate OwnGrant(s: State, d: Directory, u: UserId, top: NodeId, m: NodeId, p: Permission)
    requires m in s.nodes
  {
    exists k :: GrantsRow(s, d, k, u, s.nodes[m].org) && s.keys[k].inheritedFrom.None?
                && AtOrBelow(ParentsOf(s.nodes), m, k.0) && AtOrBelow(ParentsOf(s.nodes), k.0, top)
                && p in d.roles[s.keys[k].role]
  }

  /** The new parent, if any, grants p. */
  ghost predicate ParentGrants(s: State, d: Directory, u: UserId, parent: Option<NodeId>, p: Permission) {
    parent.Some? && parent.value in s.nodes && AclGrants(s, d, u, parent.value, p)
  }

  /** An accepted move meets what the lemmas on the forest ask. */
  lemma MoveIsLegal(s: State, r: Request)
    requires TreeOk(s) && r.MoveNode? && ApplyMoveNode(s, r).Ok?
    ensures r.node in s.nodes
    ensures r.parent.Some? ==> r.parent.value in s.nodes && !AtOrBelow(ParentsOf(s.nodes), r.parent.value, r.node)
                               && s.nodes[r.parent.value].org == s.nodes[r.node].org
    ensures ParentsOf(ApplyMoveNode(s, r).value.nodes) == ParentsOf(s.nodes)[r.node := r.parent]
  {
    if r.parent.Some? {
      BelowOne(ParentsOf(s.nodes), r.parent.value, r.node);
    }
  }

  /** The rows of the state after the move: those of the subtree that were not inherited, and all others. */
  lemma RowsAfterMove(s: State, r: Request, k: (NodeId, Principal))
    requires TreeOk(s) && r.MoveNode? && ApplyMoveNode(s, r).Ok?
    ensures var t := ApplyMoveNode(s, r).value;
            && (k in t.keys <==> k in s.keys && (AtOrBelow(ParentsOf(s.nodes), k.0, r.node) ==> s.keys[k].inheritedFrom.None?))
            && (k in t.keys ==> t.keys[k] == s.keys[k])
  {
    MoveIsLegal(s, r);
    MoveKeepsSubtree(ParentsOf(s.nodes), r.node, r.parent);
    BelowOne(ParentsOf(s.nodes), k.0, r.node);
  }

  /** Outside the moved subtree nobody gains or loses a permission. */
  lemma MoveElsewhere(s: State, r: Request, d: Directory, u: UserId, m: NodeId, p: Permission)
    requires TreeOk(s) && r.MoveNode? && ApplyMoveNode(s, r).Ok?
    requires m in s.nodes && !AtOrBelow(ParentsOf(s.nodes), m, r.node)
    ensures m in ApplyMoveNode(s, r).value.nodes
    ensures AclGrants(ApplyMoveNode(s, r).value, d, u, m, p) <==> AclGrants(s, d, u, m, p)
  {
    var t := ApplyMoveNode(s, r).value;
    MoveIsLegal(s, r);
    forall k
      ensures RowGrants(t, d, u, m, p, k) <==> RowGrants(s, d, u, m, p, k)
    {
      RowsAfterMove(s, r, k);
      PathOutsideMove(ParentsOf(s.nodes), r.node, r.parent, m, k.0);
      if AtOrBelow(ParentsOf(s.nodes), m, k.0) && AtOrBelow(ParentsOf(s.nodes), k.0, r.node) {
        AtOrBelowTransitive(ParentsOf(s.nodes), m, k.0, r.node);
      }
    }
    GrantsByRow(s, d, u, m, p);
    GrantsByRow(t, d, u, m, p);
  }

  /** Row k grants p on m. */
  ghost predicate RowGrants(s: State, d: Directory, u: UserId, m: NodeId, p: Permission, k: (NodeId, Principal))
    requires m in s.nodes
  {
    GrantsRow(s, d, k, u, s.nodes[m].org) && k.0 in s.nodes && AtOrBelow(ParentsOf(s.nodes), m, k.0)
    && p in d.roles[s.keys[k].role]
  }

  lemma GrantsByRow(s: State, d: Directory, u: UserId, m: NodeId, p: Permission)
    requires m in s.nodes
    ensures AclGrants(s, d, u, m, p) <==> exists k :: RowGrants(s, d, u, m, p, k)
  {
    if AclGrants(s, d, u, m, p) {
      var k :| GrantsRow(s, d, k, u, s.nodes[m].org) && k.0 in s.nodes && AtOrBelow(ParentsOf(s.nodes), m, k.0)
               && p in d.roles[s.keys[k].role];
      assert RowGrants(s, d, u, m, p, k);
    }
  }

  /** A row grants p on m after the move exactly when it is a direct one of the subtree, or grants on the
      new parent. */
  lemma RowAfterMove(s: State, r: Request, d: Directory, u: UserId, m: NodeId, p: Permission, k: (NodeId, Principal))
    requires TreeOk(s) && r.MoveNode? && ApplyMoveNode(s, r).Ok?
    requires m in s.nodes && AtOrBelow(ParentsOf(s.nodes), m, r.node)
    ensures m in ApplyMoveNode(s, r).value.nodes
    ensures RowGrants(ApplyMoveNode(s, r).value, d, u, m, p, k) <==>
              || (RowGrants(s, d, u, m, p, k) && s.keys[k].inheritedFrom.None? && AtOrBelow(ParentsOf(s.nodes), k.0, r.node))
              || (r.parent.Some? && r.parent.value in s.nodes && RowGrants(s, d, u, r.parent.value, p, k))
  {
    var parents := ParentsOf(s.nodes);
    MoveIsLegal(s, r);
    RowsAfterMove(s, r, k);
    PathInsideMove(parents, r.node, r.parent, m, k.0);
    var i: nat :| Up(parents, m, i) == Some(r.node);
    SameOrgBelow(s, m, r.node, i);
    if r.parent.Some? && AtOrBelow(parents, r.parent.value, k.0) && AtOrBelow(parents, k.0, r.node) {
      AtOrBelowTransitive(parents, r.parent.value, k.0, r.node);
    }
  }

  /** After a move a permission is granted in the moved subtree exactly by a direct grant made within the
      subtree, or by what the new parent grants: nothing of the old place is left. */
  lemma MovedGrants(s: State, r: Request, d: Directory, u: UserId, m: NodeId, p: Permission)
    requires TreeOk(s) && r.MoveNode? && ApplyMoveNode(s, r).Ok?
    requires m in s.nodes && AtOrBelow(ParentsOf(s.nodes), m, r.node)
    ensures m in ApplyMoveNode(s, r).value.nodes
    ensures AclGrants(ApplyMoveNode(s, r).value, d, u, m, p) <==>
              OwnGrant(s, d, u, r.node, m, p) || ParentGrants(s, d, u, r.parent, p)
  {
    var t := ApplyMoveNode(s, r).value;
    forall k
      ensures RowGrants(t, d, u, m, p, k) <==>
                || (RowGrants(s, d, u, m, p, k) && s.keys[k].inheritedFrom.None? && AtOrBelow(ParentsOf(s.nodes), k.0, r.node))
                || (r.parent.Some? && r.parent.value in s.nodes && RowGrants(s, d, u, r.parent.value, p, k))
    {
      RowAfterMove(s, r, d, u, m, p, k);
    }
    GrantsByRow(t, d, u, m, p);
    OwnByRow(s, d, u, r.node, m, p);
    if r.parent.Some? && r.parent.value in s.nodes {
      GrantsByRow(s, d, u, r.parent.value, p);
    }
  }

  lemma OwnByRow(s: State, d: Directory, u: UserId, top: NodeId, m: NodeId, p: Permission)
    requires m in s.nodes
    ensures OwnGrant(s, d, u, top, m, p) <==>
              exists k :: RowGrants(s, d, u, m, p, k) && s.keys[k].inheritedFrom.None? && AtOrBelow(ParentsOf(s.nodes), k.0, top)
  {
    forall k: (NodeId, Principal) | AtOrBelow(ParentsOf(s.nodes), k.0, top)
      ensures k.0 in s.nodes
    {
      var i: nat :| Up(ParentsOf(s.nodes), k.0, i) == Some(top);
    }
    if OwnGrant(s, d, u, top, m, p) {
      var k :| GrantsRow(s, d, k, u, s.nodes[m].org) && s.keys[k].inheritedFrom.None?
               && AtOrBelow(ParentsOf(s.nodes), m, k.0) && AtOrBelow(ParentsOf(s.nodes), k.0, top)
               && p in d.roles[s.keys[k].role];
      assert RowGrants(s, d, u, m, p, k);
    }
  }

  // ---------------------------------------------------------------- keys

  /** No accepted request of the run rotates n. */
  ghost predicate NotRotated(s: State, rs: seq<Request>, n: NodeId)
    decreases |rs|
  {
    |rs| == 0 || (!Rotates(s, rs[0], n) && NotRotated(Step(s, rs[0]), rs[1..], n))
  }

  /** Until a rotation everything written on a node is under the epoch it has. */
  lemma {:induction false} SameEpochUntilRotated(s: State, rs: seq<Request>, n: NodeId, e: nat)
    requires HonestRun(s, rs) && NotRotated(s, rs, n) && n in s.usedNodes && (n in s.nodes ==> s.nodes[n].epoch == e)
    ensures s.archive <= Run(s, rs).archive && s.writes <= Run(s, rs).writes
    ensures forall i :: |s.writes| <= i < |Run(s, rs).writes| && Run(s, rs).writes[i].node == n ==> Run(s, rs).writes[i].epoch == e
    decreases |rs|
  {
    if |rs| > 0 {
      var t := Step(s, rs[0]);
      NodeAfter(s, rs[0], n);
      WritesAfter(s, rs[0]);
      ArchiveGrows(s, rs[0]);
      SameEpochUntilRotated(t, rs[1..], n, e);
      var end := Run(s, rs);
      forall i | |s.writes| <= i < |end.writes| && end.writes[i].node == n
        ensures end.writes[i].epoch == e
      {
        if i < |t.writes| {
          assert end.writes[i] == t.writes[i];
        }
      }
    }
  }

  lemma ArchiveGrows(s: State, r: Request)
    ensures s.archive <= Step(s, r).archive
  {
  }

  lemma DerivesMore(ws: set<Wrap>, more: set<Wrap>, from: Key, to: Key)
    requires Derives(ws, from, to) && ws <= more
    ensures Derives(more, from, to)
  {
    var ks :| Chain(ws, ks) && ks[0] == from && ks[|ks| - 1] == to;
    assert Chain(more, ks);
  }

  /**
   A move takes the permission but not the key: someone who could read n through an inherited row, and
   whom neither a direct grant of the subtree nor the new parent grants the permission, loses it; and
   still derives the key of everything written on n over any run, until n is rotated.
   */
  lemma LostGrantStillReads(s: State, r: Request, rs: seq<Request>, d: Directory, u: UserId, n: NodeId, q: Principal, p: Permission)
    requires Inv(s) && r.MoveNode? && Apply(s, r).Ok? && n in s.nodes && AtOrBelow(ParentsOf(s.nodes), n, r.node)
    requires GrantsRow(s, d, (n, q), u, s.nodes[n].org) && s.keys[(n, q)].inheritedFrom.Some?
    requires p in d.roles[s.keys[(n, q)].role]
    requires !OwnGrant(s, d, u, r.node, n, p) && !ParentGrants(s, d, u, r.parent, p)
    requires HonestRun(Step(s, r), rs) && NotRotated(Step(s, r), rs, n)
    ensures AclGrants(s, d, u, n, p)
    ensures n in Step(s, r).nodes && !AclGrants(Step(s, r), d, u, n, p)
    ensures var end := Run(Step(s, r), rs);
            && s.writes <= end.writes
            && forall i :: |s.writes| <= i < |end.writes| && end.writes[i].node == n ==>
                 end.writes[i].epoch == s.nodes[n].epoch && Derives(end.archive, UserKey(u), Cek(n, end.writes[i].epoch))
  {
    var t, e := Step(s, r), s.nodes[n].epoch;
    assert Up(ParentsOf(s.nodes), n, 0) == Some(n);
    GrantsByRow(s, d, u, n, p);
    assert RowGrants(s, d, u, n, p, (n, q));
    MovedGrants(s, r, d, u, n, p);
    ObserverSeesGrants(ApplyMoveNode(s, r).value, d, u, n, p);
    AclReads(s, u, n, q);
    NodeAfter(s, r, n);
    ArchiveGrows(s, r);
    SameEpochUntilRotated(t, rs, n, e);
    DerivesMore(s.archive, Run(t, rs).archive, UserKey(u), Cek(n, e));
  }

  lemma ObserverSeesGrants(s: State, d: Directory, u: UserId, n: NodeId, p: Permission)
    requires n in s.nodes
    ensures AclGrants(Observe(s), d, u, n, p) <==> AclGrants(s, d, u, n, p)
  {
    forall k
      ensures RowGrants(Observe(s), d, u, n, p, k) <==> RowGrants(s, d, u, n, p, k)
    {
    }
    GrantsByRow(s, d, u, n, p);
    GrantsByRow(Observe(s), d, u, n, p);
  }
}
