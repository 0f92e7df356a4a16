/**
 What each accepted request of the Drive does, column by column, and what it leaves alone
 (server/src/routes/nodes.ts, server/src/routes/groups.ts, server/src/lib/group-rotation.ts); and what
 a rotation means for those who must go on reading what was written before it.
 */
module DriveEffects {
  import opened Prelude
  import opened Forest
  import opened KeyGraph
  import opened Preconditions
  import opened DriveModel
  import opened DriveInvariant
  import opened Revocation

  // ---------------------------------------------------------------- continuity across rotations

  lemma LinkStored(s: State, r: Request)
    requires r.RotateNode? && Apply(s, r).Ok? && r.keepPrevious
    ensures r.node in s.nodes
    ensures Wrap(Cek(r.node, s.nodes[r.node].epoch + 1), Cek(r.node, s.nodes[r.node].epoch)) in Step(s, r).archive
  {
  }

  /** A rotation that keeps the previous key: whoever can read the node can read what was written before. */
  lemma RotationKeepsContent(s: State, r: Request, u: UserId)
    requires Inv(s) && r.RotateNode? && Apply(s, r).Ok? && r.keepPrevious
    requires Derives(Step(s, r).archive, UserKey(u), Cek(r.node, s.nodes[r.node].epoch + 1))
    ensures Derives(Step(s, r).archive, UserKey(u), Cek(r.node, s.nodes[r.node].epoch))
  {
    var e := s.nodes[r.node].epoch;
    LinkStored(s, r);
    DerivesStep(Step(s, r).archive, UserKey(u), Cek(r.node, e + 1), Cek(r.node, e));
  }

  lemma OldKeyNotGiven(s: State, r: Request, k: Key)
    requires Inv(s) && r.RotateNode? && Apply(s, r).Ok? && !r.keepPrevious
    requires Wrap(k, Cek(r.node, s.nodes[r.node].epoch)) in Step(s, r).archive
    ensures Wrap(k, Cek(r.node, s.nodes[r.node].epoch)) in s.archive
  {
    var w := Wrap(k, Cek(r.node, s.nodes[r.node].epoch));
    if w !in s.archive {
      StepAdds(s, r, w);
    }
  }

  lemma NoPrincipalKeyGiven(s: State, r: Request, u: UserId, k: Key)
    requires Inv(s) && r.RotateNode? && Apply(s, r).Ok? && !k.Cek? && Wrap(UserKey(u), k) in Step(s, r).archive
    ensures Wrap(UserKey(u), k) in s.archive
  {
    if Wrap(UserKey(u), k) !in s.archive {
      StepAdds(s, r, Wrap(UserKey(u), k));
    }
  }

  /** One that does not keep it gives the previous key to nobody and takes it from nobody. */
  lemma RotationWithoutLink(s: State, r: Request, u: UserId)
    requires Inv(s) && r.RotateNode? && Apply(s, r).Ok? && !r.keepPrevious
    ensures Derives(Step(s, r).archive, UserKey(u), Cek(r.node, s.nodes[r.node].epoch))
       <==> Derives(s.archive, UserKey(u), Cek(r.node, s.nodes[r.node].epoch))
  {
    var t, n, e := Step(s, r), r.node, s.nodes[r.node].epoch;
    StepKeeps(s, r);
    DerivesIff(s.archive, u, Cek(n, e));
    DerivesIff(t.archive, u, Cek(n, e));
    if Obtains(t.archive, u, n, e) {
      var hi: nat :| hi >= e && Opens(t.archive, u, n, hi) && BackLinked(t.archive, n, hi, e);
      NoLinkBack(s, r, hi);
      OldOpening(s, r, u);
      assert BackLinked(s.archive, n, e, e);
    }
    if Obtains(s.archive, u, n, e) {
      var hi: nat :| hi >= e && Opens(s.archive, u, n, hi) && BackLinked(s.archive, n, hi, e);
      assert s.archive <= t.archive;
      assert Opens(t.archive, u, n, hi) && BackLinked(t.archive, n, hi, e);
    }
  }

  lemma NoLinkBack(s: State, r: Request, hi: nat)
    requires Inv(s) && r.RotateNode? && Apply(s, r).Ok? && !r.keepPrevious && hi >= s.nodes[r.node].epoch
    requires BackLinked(Step(s, r).archive, r.node, hi, s.nodes[r.node].epoch)
    ensures hi == s.nodes[r.node].epoch
  {
    var e := s.nodes[r.node].epoch;
    if hi > e {
      OldKeyNotGiven(s, r, Cek(r.node, e + 1));
    }
  }

  lemma OldOpening(s: State, r: Request, u: UserId)
    requires Inv(s) && r.RotateNode? && Apply(s, r).Ok? && !r.keepPrevious
    requires Opens(Step(s, r).archive, u, r.node, s.nodes[r.node].epoch)
    ensures Opens(s.archive, u, r.node, s.nodes[r.node].epoch)
  {
    var t, c := Step(s, r), Cek(r.node, s.nodes[r.node].epoch);
    if Wrap(UserKey(u), c) in t.archive {
      OldKeyNotGiven(s, r, UserKey(u));
    } else {
      var k: Key :| !k.Cek? && Wrap(UserKey(u), k) in t.archive && Wrap(k, c) in t.archive;
      OldKeyNotGiven(s, r, k);
      NoPrincipalKeyGiven(s, r, u, k);
    }
  }

  /** From the current key of every node the links lead back to its first. */
  ghost predicate LinkedBack(s: State) {
    forall n :: n in s.nodes ==> BackLinked(s.archive, n, s.nodes[n].epoch, 1)
  }

  ghost predicate KeepsLinks(s: State, rs: seq<Request>)
    decreases |rs|
  {
    |rs| == 0 || ((rs[0].RotateNode? ==> rs[0].keepPrevious) && KeepsLinks(Step(s, rs[0]), rs[1..]))
  }

  lemma LinkedWhenRotated(s: State, r: Request)
    requires r.RotateNode? && Apply(s, r).Ok? && r.keepPrevious && BackLinked(s.archive, r.node, s.nodes[r.node].epoch, 1)
    requires s.archive <= Step(s, r).archive
    ensures r.node in Step(s, r).nodes && BackLinked(Step(s, r).archive, r.node, Step(s, r).nodes[r.node].epoch, 1)
  {
    LinkStored(s, r);
  }

  lemma ArchiveGrows(s: State, r: Request)
    ensures s.archive <= Step(s, r).archive
  {
  }

  lemma NodeLinked(s: State, r: Request, n: NodeId)
    requires Inv(s) && Honest(s, r) && LinkedBack(s) && (r.RotateNode? ==> r.keepPrevious) && n in Step(s, r).nodes
    ensures BackLinked(Step(s, r).archive, n, Step(s, r).nodes[n].epoch, 1)
  {
    ArchiveGrows(s, r);
    if n !in s.usedNodes {
      NewNodeAtOne(s, r, n);
    } else {
      NodeAfter(s, r, n);
      if Rotates(s, r, n) {
        LinkedWhenRotated(s, r);
      }
    }
  }

  lemma NewNodeAtOne(s: State, r: Request, n: NodeId)
    requires UsedOk(s) && n in Step(s, r).nodes && n !in s.usedNodes
    ensures Step(s, r).nodes[n].epoch == 1
  {
  }

  lemma {:induction false} LinksHold(s: State, rs: seq<Request>)
    requires Inv(s) && HonestRun(s, rs) && LinkedBack(s) && KeepsLinks(s, rs)
    ensures Inv(Run(s, rs)) && LinkedBack(Run(s, rs))
    decreases |rs|
  {
    if |rs| > 0 {
      StepKeeps(s, rs[0]);
      forall n | n in Step(s, rs[0]).nodes
        ensures BackLinked(Step(s, rs[0]).archive, n, Step(s, rs[0]).nodes[n].epoch, 1)
      {
        NodeLinked(s, rs[0], n);
      }
      LinksHold(Step(s, rs[0]), rs[1..]);
    }
  }

  lemma {:induction false} DownTheLinks(ws: set<Wrap>, u: UserId, n: NodeId, hi: nat, e: nat)
    requires e <= hi && Derives(ws, UserKey(u), Cek(n, hi)) && BackLinked(ws, n, hi, e)
    ensures Derives(ws, UserKey(u), Cek(n, e))
    decreases hi - e
  {
    if e < hi {
      DownTheLinks(ws, u, n, hi, e + 1);
      DerivesStep(ws, UserKey(u), Cek(n, e + 1), Cek(n, e));
    }
  }

  /** Over any run from a new Drive in which every rotation keeps the previous key: whoever can derive the
      current key of a node can derive every key it ever had from all envelopes ever stored. The server
      itself keeps the last link only; what that means for the versions is in RotationProtocol. */
  lemma ReadersReadEverything(orgs: map<OrgId, OrgRow>, memberships: set<(OrgId, UserId)>, roles: RoleTable, recovery: set<Wrap>,
                              rs: seq<Request>, u: UserId, n: NodeId, e: nat)
    requires forall w :: w in recovery ==> w.under.UserKey? && w.secret.OrgKey?
    requires HonestRun(NewDrive(orgs, memberships, roles, recovery), rs) && KeepsLinks(NewDrive(orgs, memberships, roles, recovery), rs)
    requires var t := Run(NewDrive(orgs, memberships, roles, recovery), rs);
             n in t.nodes && 1 <= e <= t.nodes[n].epoch && Derives(t.archive, UserKey(u), Cek(n, t.nodes[n].epoch))
    ensures Derives(Run(NewDrive(orgs, memberships, roles, recovery), rs).archive, UserKey(u), Cek(n, e))
  {
    var s := NewDrive(orgs, memberships, roles, recovery);
    LinksHold(s, rs);
    var t := Run(s, rs);
    assert BackLinked(t.archive, n, t.nodes[n].epoch, 1);
    DownTheLinks(t.archive, u, n, t.nodes[n].epoch, e);
  }

  // ---------------------------------------------------------------- owners

  /** The current key of every node was given to its owner's own key. */
  ghost predicate OwnersGiven(s: State) {
    forall n :: n in s.nodes ==> Wrap(UserKey(s.nodes[n].owner), Cek(n, s.nodes[n].epoch)) in s.archive
  }

  lemma ShareGiven(s: State, r: Request, u: UserId)
    requires (r.CreateNode? || r.RotateNode?) && Apply(s, r).Ok? && exists sh :: sh in r.shares && sh.principal == User(u)
    ensures r.node in Step(s, r).nodes && Wrap(UserKey(u), Cek(r.node, Step(s, r).nodes[r.node].epoch)) in Step(s, r).archive
  {
    var e := if r.CreateNode? then 1 else s.nodes[r.node].epoch + 1;
    var rows := RowsOf(r.node, e, r.shares, r.orgGeneration);
    RowsOfContents(r.node, e, r.shares, r.orgGeneration);
    assert (r.node, User(u)) in rows;
    assert rows[(r.node, User(u))].wrapped == Wrap(UserKey(u), Cek(r.node, e));
    assert rows[(r.node, User(u))] == Apply(s, r).value.keys[(r.node, User(u))];
  }

  lemma OwnerStillGiven(s: State, r: Request, n: NodeId)
    requires Inv(s) && Honest(s, r) && OwnersGiven(s) && n in Step(s, r).nodes
    ensures Wrap(UserKey(Step(s, r).nodes[n].owner), Cek(n, Step(s, r).nodes[n].epoch)) in Step(s, r).archive
  {
    ArchiveGrows(s, r);
    if r.CreateNode? && Apply(s, r).Ok? && n == r.node {
      ShareGiven(s, r, r.actor);
    } else if Rotates(s, r, n) {
      ShareGiven(s, r, s.nodes[n].owner);
    } else {
      OwnerUntouched(s, r, n);
    }
  }

  lemma OwnerUntouched(s: State, r: Request, n: NodeId)
    requires UsedOk(s) && Honest(s, r) && n in Step(s, r).nodes && !Rotates(s, r, n)
    requires !(r.CreateNode? && Apply(s, r).Ok? && n == r.node)
    ensures n in s.nodes && Step(s, r).nodes[n].owner == s.nodes[n].owner && Step(s, r).nodes[n].epoch == s.nodes[n].epoch
  {
  }

  lemma {:induction false} OwnersHold(s: State, rs: seq<Request>)
    requires Inv(s) && HonestRun(s, rs) && OwnersGiven(s)
    ensures Inv(Run(s, rs)) && OwnersGiven(Run(s, rs))
    decreases |rs|
  {
    if |rs| > 0 {
      StepKeeps(s, rs[0]);
      forall n | n in Step(s, rs[0]).nodes
        ensures Wrap(UserKey(Step(s, rs[0]).nodes[n].owner), Cek(n, Step(s, rs[0]).nodes[n].epoch)) in Step(s, rs[0]).archive
      {
        OwnerStillGiven(s, rs[0], n);
      }
      OwnersHold(Step(s, rs[0]), rs[1..]);
    }
  }

  /** No owner is ever locked out: over any run from a new Drive the owner of every node can derive its
      current key and, with every rotation keeping the previous one, all its keys. */
  lemma OwnersRead(orgs: map<OrgId, OrgRow>, memberships: set<(OrgId, UserId)>, roles: RoleTable, recovery: set<Wrap>,
                   rs: seq<Request>, n: NodeId, e: nat)
    requires forall w :: w in recovery ==> w.under.UserKey? && w.secret.OrgKey?
    requires HonestRun(NewDrive(orgs, memberships, roles, recovery), rs)
    requires n in Run(NewDrive(orgs, memberships, roles, recovery), rs).nodes
    ensures var t := Run(NewDrive(orgs, memberships, roles, recovery), rs);
            && Derives(t.archive, UserKey(t.nodes[n].owner), Cek(n, t.nodes[n].epoch))
            && (KeepsLinks(NewDrive(orgs, memberships, roles, recovery), rs) && 1 <= e <= t.nodes[n].epoch
                ==> Derives(t.archive, UserKey(t.nodes[n].owner), Cek(n, e)))
  {
    var s := NewDrive(orgs, memberships, roles, recovery);
    OwnersHold(s, rs);
    var t := Run(s, rs);
    DerivesSelf(t.archive, UserKey(t.nodes[n].owner));
    DerivesStep(t.archive, UserKey(t.nodes[n].owner), UserKey(t.nodes[n].owner), Cek(n, t.nodes[n].epoch));
    if KeepsLinks(s, rs) && 1 <= e <= t.nodes[n].epoch {
      ReadersReadEverything(orgs, memberships, roles, recovery, rs, t.nodes[n].owner, n, e);
    }
  }

  // ---------------------------------------------------------------- nodes

  /** The rows of a node are exactly the shares of the request, with their roles. */
  ghost predicate RowsAreShares(t: State, n: NodeId, shares: seq<Share>) {
    && (forall k: (NodeId, Principal) :: k in t.keys && k.0 == n ==> exists sh :: sh in shares && sh.principal == k.1)
    && (forall sh :: sh in shares ==>
          ((n, sh.principal) in t.keys
           && t.keys[(n, sh.principal)].role == sh.role && t.keys[(n, sh.principal)].inheritedFrom == sh.inheritedFrom))
  }

  ghost predicate OtherRowsSame(s: State, t: State, n: NodeId) {
    forall k: (NodeId, Principal) :: k.0 != n ==> (k in t.keys <==> k in s.keys) && (k in t.keys ==> t.keys[k] == s.keys[k])
  }

  ghost predicate OtherNodesSame(s: State, t: State, n: NodeId) {
    forall m :: m != n ==> (m in t.nodes <==> m in s.nodes) && (m in t.nodes ==> t.nodes[m] == s.nodes[m])
  }

  ghost predicate SamePeople(s: State, t: State) {
    t.groups == s.groups && t.members == s.members && t.orgs == s.orgs && t.memberships == s.memberships && t.roles == s.roles
  }

  lemma InsertedRows(n: NodeId, epoch: nat, shares: seq<Share>, orgGeneration: Option<nat>, existing: set<NodeId>, sh: Share)
    requires Insertable(existing, shares) && sh in shares
    ensures (n, sh.principal) in RowsOf(n, epoch, shares, orgGeneration)
    ensures RowsOf(n, epoch, shares, orgGeneration)[(n, sh.principal)] == RowFor(n, epoch, sh, orgGeneration)
  {
    RowsOfContents(n, epoch, shares, orgGeneration);
    var x :| x in shares && x.principal == sh.principal
             && RowsOf(n, epoch, shares, orgGeneration)[(n, sh.principal)] == RowFor(n, epoch, x, orgGeneration);
    var i :| 0 <= i < |shares| && shares[i] == x;
    var j :| 0 <= j < |shares| && shares[j] == sh;
    assert i == j;
  }

  lemma NodeCreated(s: State, r: Request)
    requires r.CreateNode? && Apply(s, r).Ok?
    ensures var t := Step(s, r);
            && r.node in t.nodes && OtherNodesSame(s, t, r.node)
            && t.nodes[r.node].org == r.org && t.nodes[r.node].parent == r.parent && t.nodes[r.node].owner == r.actor
            && !t.nodes[r.node].rotationRequired && !t.nodes[r.node].trashed && t.nodes[r.node].version.None?
            && SamePeople(s, t) && t.writes == s.writes
  {
  }

  lemma NodeWrapped(s: State, r: Request)
    requires KeysOk(s) && UsedOk(s) && Honest(s, r) && r.CreateNode? && Apply(s, r).Ok?
    ensures RowsAreShares(Step(s, r), r.node, r.shares) && OtherRowsSame(s, Step(s, r), r.node)
  {
    var rows, t := RowsOf(r.node, 1, r.shares, r.orgGeneration), Step(s, r);
    RowsOfContents(r.node, 1, r.shares, r.orgGeneration);
    assert t.keys == s.keys + rows;
    forall sh | sh in r.shares
      ensures (r.node, sh.principal) in rows && rows[(r.node, sh.principal)] == RowFor(r.node, 1, sh, r.orgGeneration)
    {
      InsertedRows(r.node, 1, r.shares, r.orgGeneration, s.nodes.Keys, sh);
    }
    forall k | k in s.keys
      ensures k.0 != r.node
    {
      assert KeyRowOk(s, k, s.keys[k]);
    }
  }

  lemma NodeRotated(s: State, r: Request)
    requires r.RotateNode? && Apply(s, r).Ok?
    ensures var t := Step(s, r);
            && r.node in s.nodes && r.node in t.nodes && OtherNodesSame(s, t, r.node)
            && t.nodes[r.node].epoch == s.nodes[r.node].epoch + 1 && !t.nodes[r.node].rotationRequired
            && t.nodes[r.node].org == s.nodes[r.node].org && t.nodes[r.node].parent == s.nodes[r.node].parent
            && t.nodes[r.node].owner == s.nodes[r.node].owner && t.nodes[r.node].version == s.nodes[r.node].version
            && t.nodes[r.node].trashed == s.nodes[r.node].trashed
            && SamePeople(s, t) && t.writes == s.writes
  {
  }

  lemma NodeRewrapped(s: State, r: Request)
    requires r.RotateNode? && Apply(s, r).Ok?
    ensures RowsAreShares(Step(s, r), r.node, r.shares) && OtherRowsSame(s, Step(s, r), r.node)
  {
    var e := s.nodes[r.node].epoch + 1;
    var rows, t := RowsOf(r.node, e, r.shares, r.orgGeneration), Step(s, r);
    RowsOfContents(r.node, e, r.shares, r.orgGeneration);
    assert t.keys == (map k | k in s.keys && k.0 != r.node :: s.keys[k]) + rows;
    forall sh | sh in r.shares
      ensures (r.node, sh.principal) in rows && rows[(r.node, sh.principal)] == RowFor(r.node, e, sh, r.orgGeneration)
    {
      InsertedRows(r.node, e, r.shares, r.orgGeneration, s.nodes.Keys, sh);
    }
  }

  /** A flagged node takes writes again as soon as it is rotated, under the new epoch only. */
  lemma WritableOnceRotated(s: State, r: Request, newVersion: VersionId, epoch: nat)
    requires r.RotateNode? && Apply(s, r).Ok?
    ensures var t := Step(s, r);
            Apply(t, PutContent(r.node, ContentBase(s.nodes[r.node].version, epoch), newVersion)).Ok?
            <==> epoch == s.nodes[r.node].epoch + 1
    ensures Apply(Step(s, r), RelayUpdate(r.node, epoch)).Ok? <==> epoch == s.nodes[r.node].epoch + 1
  {
    NodeRotated(s, r);
  }

  lemma ContentPut(s: State, r: Request)
    requires r.PutContent? && Apply(s, r).Ok?
    ensures var t := Step(s, r);
            && r.node in s.nodes && r.node in t.nodes && OtherNodesSame(s, t, r.node)
            && t.nodes[r.node].version == Some(r.newVersion) && t.nodes[r.node].epoch == s.nodes[r.node].epoch
            && t.nodes[r.node].org == s.nodes[r.node].org && t.nodes[r.node].parent == s.nodes[r.node].parent
            && t.nodes[r.node].owner == s.nodes[r.node].owner && t.nodes[r.node].trashed == s.nodes[r.node].trashed
            && !t.nodes[r.node].rotationRequired
            && |t.writes| == |s.writes| + 1 && s.writes <= t.writes
            && t.writes[|s.writes|].node == r.node && t.writes[|s.writes|].epoch == r.base.epoch
            && t.keys == s.keys && SamePeople(s, t)
  {
  }

  /** Of two writers that opened the same version, the second to come is refused. */
  lemma SecondWriterRefused(s: State, n: NodeId, base: ContentBase, first: VersionId, second: VersionId)
    requires Apply(s, PutContent(n, base, first)).Ok? && base.version != Some(first)
    ensures Apply(Step(s, PutContent(n, base, first)), PutContent(n, base, second)) == Err(Conflict)
  {
    ContentPut(s, PutContent(n, base, first));
  }

  lemma NodeMoved(s: State, r: Request)
    requires IsForest(ParentsOf(s.nodes)) && r.MoveNode? && Apply(s, r).Ok?
    ensures var t := Step(s, r);
            && r.node in s.nodes && r.node in t.nodes && OtherNodesSame(s, t, r.node)
            && t.nodes[r.node].parent == r.parent && t.nodes[r.node].(parent := s.nodes[r.node].parent) == s.nodes[r.node]
            && !s.nodes[r.node].rotationRequired && t.writes == s.writes && SamePeople(s, t)
            && (forall k :: k in t.keys <==> k in s.keys && !(k.0 in Subtree(ParentsOf(s.nodes), {r.node}) && s.keys[k].inheritedFrom.Some?))
            && (forall k :: k in t.keys ==> t.keys[k] == s.keys[k])
  {
    SameBelow(s, r);
  }

  /** What lies below a node does not depend on where it hangs. */
  lemma SameBelow(s: State, r: Request)
    requires IsForest(ParentsOf(s.nodes)) && r.MoveNode? && Apply(s, r).Ok?
    ensures Subtree(ParentsOf(s.nodes[r.node := s.nodes[r.node].(parent := r.parent)]), {r.node}) == Subtree(ParentsOf(s.nodes), {r.node})
  {
    MoveKeepsSubtree(ParentsOf(s.nodes), r.node, r.parent);
    assert ParentsOf(s.nodes[r.node := s.nodes[r.node].(parent := r.parent)]) == ParentsOf(s.nodes)[r.node := r.parent];
  }

  lemma NodePurged(s: State, r: Request)
    requires r.Purge? && Apply(s, r).Ok?
    ensures var t, gone := Step(s, r), Subtree(ParentsOf(s.nodes), {r.node});
            && r.node in s.nodes && s.nodes[r.node].trashed && t.writes == s.writes && SamePeople(s, t)
            && (forall m :: m in t.nodes <==> m in s.nodes && m !in gone) && (forall m :: m in t.nodes ==> t.nodes[m] == s.nodes[m])
            && (forall k :: k in t.keys <==> k in s.keys && k.0 !in gone)
            && (forall k :: k in t.keys ==>
                  (t.keys[k].role == s.keys[k].role && t.keys[k].wrapped == s.keys[k].wrapped
                   && t.keys[k].inheritedFrom == (if exists m :: m in gone && s.keys[k].inheritedFrom == Some(m) then None
                                                  else s.keys[k].inheritedFrom)))
  {
  }

  /** An update of the relay is recorded under the current epoch, and changes no table. */
  lemma UpdateRelayed(s: State, n: NodeId, peerEpoch: nat)
    ensures Apply(s, RelayUpdate(n, peerEpoch)).Ok? <==> n in s.nodes && !s.nodes[n].rotationRequired && s.nodes[n].epoch == peerEpoch
    ensures Apply(s, RelayUpdate(n, peerEpoch)).Ok? ==>
              var t := Step(s, RelayUpdate(n, peerEpoch));
              && |t.writes| == |s.writes| + 1 && s.writes <= t.writes
              && t.writes[|s.writes|].node == n && t.writes[|s.writes|].epoch == s.nodes[n].epoch
              && t.nodes == s.nodes && t.keys == s.keys && SamePeople(s, t)
  {
  }

  /** A restored node is as it was before it was trashed, and nothing else was touched meanwhile. */
  lemma TrashedAndRestored(s: State, n: NodeId)
    requires n in s.nodes
    ensures var t := Step(s, Trash(n));
            && n in t.nodes && t.nodes[n].trashed && t.nodes[n].(trashed := s.nodes[n].trashed) == s.nodes[n]
            && OtherNodesSame(s, t, n) && t.keys == s.keys && SamePeople(s, t) && t.writes == s.writes
    ensures var u := Step(Step(s, Trash(n)), Restore(n));
            && n in u.nodes && !u.nodes[n].trashed && u.nodes[n].(trashed := s.nodes[n].trashed) == s.nodes[n]
            && OtherNodesSame(s, u, n) && u.keys == s.keys && SamePeople(s, u) && u.writes == s.writes
  {
  }

  /** What was shared with its organisation stays shared with it when its key is rotated. */
  lemma OrganisationStaysIn(s: State, r: Request)
    requires r.RotateNode? && Apply(s, r).Ok? && exists k :: k in s.keys && k.0 == r.node && k.1.Org?
    ensures r.node in s.nodes && (r.node, Org(s.nodes[r.node].org)) in Step(s, r).keys
  {
    NodeRewrapped(s, r);
    OrganisationNamed(s, r);
    var sh :| sh in r.shares && sh.principal == Org(s.nodes[r.node].org);
  }

  lemma OrganisationNamed(s: State, r: Request)
    requires r.RotateNode? && RotateNodeError(s, r).None? && exists k :: k in s.keys && k.0 == r.node && k.1.Org?
    ensures exists sh :: sh in r.shares && sh.principal == Org(s.nodes[r.node].org)
  {
  }

  /** Of two rotations that name the same epoch of a node, or the same key of a group, the second is refused. */
  lemma SecondRotationRefused(s: State, first: Request, second: Request)
    requires Apply(s, first).Ok?
    ensures first.RotateNode? && second.RotateNode? && second.node == first.node && second.expectedEpoch == Some(s.nodes[first.node].epoch)
            ==> Apply(Step(s, first), second).Err?
    ensures first.RotateGroup? && second.RotateGroup? && second.group == first.group && second.org == first.org
            && second.body.expectedPub == first.body.expectedPub
            ==> Apply(Step(s, first), second) == Err(Conflict)
  {
    if first.RotateNode? {
      NodeRotated(s, first);
    } else if first.RotateGroup? {
      GroupRotated(s, first);
    }
  }

  // ---------------------------------------------------------------- groups

  /** Membership and keys of a group change only at the hand of an owner or of one of its managers. */
  lemma ManagersDecide(s: State, r: Request)
    requires (r.AddMember? || r.RotateGroup?) && Apply(s, r).Ok?
    ensures r.isOwner || ((r.group, r.actor) in s.members && s.members[(r.group, r.actor)].manager)
    ensures r.group in s.groups && s.groups[r.group].org == r.org && (r.AddMember? ==> (r.org, r.user) in s.memberships)
  {
  }

  lemma MemberAdded(s: State, r: Request)
    requires Inv(s) && r.AddMember? && Apply(s, r).Ok?
    ensures var t := Step(s, r);
            && (r.group, r.user) in t.members && t.members[(r.group, r.user)].manager == r.manager
            && (forall k: (GroupId, UserId) :: k != (r.group, r.user) ==>
                  (k in t.members <==> k in s.members) && (k in t.members ==> t.members[k] == s.members[k]))
            && t.groups == s.groups && t.nodes == s.nodes && t.keys == s.keys && t.writes == s.writes
            && Derives(t.archive, UserKey(r.user), GroupKey(r.group, s.groups[r.group].pub))
  {
    StepKeeps(s, r);
    var t := Step(s, r);
    assert t.members[(r.group, r.user)].wrapped == Wrap(UserKey(r.user), GroupKey(r.group, s.groups[r.group].pub));
    DerivesSelf(t.archive, UserKey(r.user));
    DerivesStep(t.archive, UserKey(r.user), UserKey(r.user), GroupKey(r.group, s.groups[r.group].pub));
  }

  lemma {:induction false} InitialRows(g: GroupId, pub: PubKey, initial: seq<(UserId, bool)>)
    ensures forall k :: k in InitialMembers(g, pub, initial) <==> k.0 == g && exists m :: m in initial && m.0 == k.1
    ensures forall k :: k in InitialMembers(g, pub, initial) ==> (k.1, InitialMembers(g, pub, initial)[k].manager) in initial
  {
    if |initial| > 0 {
      var n := |initial| - 1;
      InitialRows(g, pub, initial[..n]);
      assert forall m :: m in initial <==> m == initial[n] || m in initial[..n];
    }
  }

  lemma GroupCreated(s: State, r: Request)
    requires Inv(s) && Honest(s, r) && r.CreateGroup? && Apply(s, r).Ok?
    ensures var t := Step(s, r);
            && r.group !in s.groups && r.group in t.groups
            && t.groups[r.group].org == r.org && t.groups[r.group].pub == r.pub && !t.groups[r.group].rotationRequired
            && (forall g :: g != r.group ==> (g in t.groups <==> g in s.groups) && (g in t.groups ==> t.groups[g] == s.groups[g]))
            && (forall k: (GroupId, UserId) :: k.0 == r.group ==> (k in t.members <==> exists m :: m in r.initial && m.0 == k.1))
            && (forall k: (GroupId, UserId) :: k.0 == r.group && k in t.members ==> (k.1, t.members[k].manager) in r.initial)
            && (forall k: (GroupId, UserId) :: k.0 != r.group ==> (k in t.members <==> k in s.members) && (k in t.members ==> t.members[k] == s.members[k]))
            && t.nodes == s.nodes && t.keys == s.keys && t.writes == s.writes
  {
    InitialRows(r.group, r.pub, r.initial);
    forall k | k in s.members
      ensures k.0 != r.group
    {
      assert k.0 in s.groups;
    }
  }

  lemma GroupRotated(s: State, r: Request)
    requires r.RotateGroup? && Apply(s, r).Ok?
    ensures var t := Step(s, r);
            && r.group in s.groups && r.group in t.groups && t.groups[r.group].pub == r.body.newPub
            && t.groups[r.group].org == s.groups[r.group].org && !t.groups[r.group].rotationRequired
            && (forall g :: g != r.group ==> (g in t.groups <==> g in s.groups) && (g in t.groups ==> t.groups[g] == s.groups[g]))
            && (forall k :: k in t.members <==> k in s.members && !(k.0 == r.group && r.remove == Some(k.1)))
            && (forall k :: k in t.members ==>
                  (t.members[k].manager == s.members[k].manager && (k.0 != r.group ==> t.members[k] == s.members[k])))
            && (forall k :: k in t.keys <==> k in s.keys)
            && (forall k :: k in t.keys ==>
                  (t.keys[k].role == s.keys[k].role && t.keys[k].inheritedFrom == s.keys[k].inheritedFrom
                   && (k.1 != Group(r.group) ==> t.keys[k] == s.keys[k])))
            && t.writes == s.writes
  {
  }

  /** A removal or a deletion flags exactly what was exposed, and changes nothing else of any node. */
  lemma ExposedFlagged(s: State, r: Request, n: NodeId)
    requires KeysOk(s) && (r.RotateGroup? || r.DeleteGroup?) && Apply(s, r).Ok? && n in s.nodes
    ensures var t := Step(s, r);
            && n in t.nodes && (t.nodes[n].rotationRequired <==> s.nodes[n].rotationRequired || n in Exposed(s, r.group))
            && t.nodes[n].epoch == s.nodes[n].epoch && t.nodes[n].version == s.nodes[n].version && t.nodes[n].parent == s.nodes[n].parent
            && t.nodes[n].org == s.nodes[n].org && t.nodes[n].owner == s.nodes[n].owner && t.nodes[n].trashed == s.nodes[n].trashed
  {
    if r.RotateGroup? {
      SharedIsExposed(s, r);
    }
  }

  lemma SharedIsExposed(s: State, r: Request)
    requires KeysOk(s) && r.RotateGroup? && Apply(s, r).Ok?
    ensures SharedWith(s, r.org, r.group) == set k | k in s.keys && k.1 == Group(r.group) :: k.0
  {
    forall k | k in s.keys && k.1 == Group(r.group)
      ensures k.0 in SharedWith(s, r.org, r.group)
    {
      assert KeyRowOk(s, k, s.keys[k]);
    }
  }

  lemma GroupDeleted(s: State, r: Request)
    requires r.DeleteGroup? && Apply(s, r).Ok?
    ensures var t := Step(s, r);
            && r.group in s.groups && (forall g :: g in t.groups <==> g in s.groups && g != r.group)
            && (forall g :: g in t.groups ==> t.groups[g] == s.groups[g])
            && (forall k :: k in t.members <==> k in s.members && k.0 != r.group)
            && (forall k :: k in t.members ==> t.members[k] == s.members[k])
            && (forall k :: k in t.keys <==> k in s.keys && k.1 != Group(r.group))
            && (forall k :: k in t.keys ==> t.keys[k] == s.keys[k]) && t.writes == s.writes
  {
  }

  /** Whoever is in a group is in its organisation. */
  ghost predicate MembersInOrg(s: State) {
    forall k :: k in s.members ==> k.0 in s.groups && (s.groups[k.0].org, k.1) in s.memberships
  }

  lemma StepKeepsMembersInOrg(s: State, r: Request)
    requires Inv(s) && Honest(s, r) && MembersInOrg(s)
    ensures MembersInOrg(Step(s, r)) && Step(s, r).memberships == s.memberships
  {
    if Apply(s, r).Ok? {
      match r
      case CreateGroup(_, _, _, _) => NewMembersInOrg(s, r);
      case AddMember(_, _, _, _, _, _, _) => MemberAdded(s, r);
      case RotateGroup(_, _, _, _, _, _) => GroupRotated(s, r);
      case DeleteGroup(_, _) => GroupDeleted(s, r);
      case _ => NodesKeepGroups(s, r);
    }
  }

  lemma NodesKeepGroups(s: State, r: Request)
    requires !(r.CreateGroup? || r.AddMember? || r.RotateGroup? || r.DeleteGroup?)
    ensures Step(s, r).groups == s.groups && Step(s, r).members == s.members && Step(s, r).memberships == s.memberships
  {
  }

  lemma NewMembersInOrg(s: State, r: Request)
    requires Inv(s) && Honest(s, r) && r.CreateGroup? && Apply(s, r).Ok? && MembersInOrg(s)
    ensures MembersInOrg(Step(s, r))
  {
    GroupCreated(s, r);
    forall k | k in Step(s, r).members && k.0 == r.group
      ensures (r.org, k.1) in s.memberships
    {
      var m :| m in r.initial && m.0 == k.1;
    }
  }

  lemma {:induction false} MembersStayInOrg(s: State, rs: seq<Request>)
    requires Inv(s) && HonestRun(s, rs) && MembersInOrg(s)
    ensures MembersInOrg(Run(s, rs)) && Run(s, rs).memberships == s.memberships
    decreases |rs|
  {
    if |rs| > 0 {
      StepKeeps(s, rs[0]);
      StepKeepsMembersInOrg(s, rs[0]);
      MembersStayInOrg(Step(s, rs[0]), rs[1..]);
    }
  }
}
