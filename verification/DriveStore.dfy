/**
 The routes of the Drive as methods over mutable tables. Each method is one transaction; its contract
 says that the tables move exactly as the step of DriveModel for the same request does, so every
 lemma about runs of that model speaks about runs of this store. The ghost fields are the observer.
 */
module DriveStore {
  import opened Prelude
  import opened Forest
  import opened KeyGraph
  import opened Preconditions
  import opened DriveModel

  class Store {
    var nodes: map<NodeId, Node>
    var keys: KeyTable
    var groups: map<GroupId, GroupRow>
    var members: MemberTable
    const orgs: map<OrgId, OrgRow>
    const memberships: set<(OrgId, UserId)>
    const roles: RoleTable
    ghost var archive: set<Wrap>
    ghost var writes: seq<Write>
    ghost var usedNodes: set<NodeId>
    ghost var usedGroups: set<GroupId>
    ghost var usedPubs: set<(GroupId, PubKey)>

    constructor (orgs: map<OrgId, OrgRow>, memberships: set<(OrgId, UserId)>, roles: RoleTable, ghost recovery: set<Wrap>)
      ensures Abs() == State(map[], map[], map[], map[], orgs, memberships, roles, recovery, [], {}, {}, {})
    {
      nodes, keys, groups, members := map[], map[], map[], map[];
      this.orgs, this.memberships, this.roles := orgs, memberships, roles;
      archive, writes, usedNodes, usedGroups, usedPubs := recovery, [], {}, {}, {};
    }

    ghost function Abs(): State
      reads this
    {
      State(nodes, keys, groups, members, orgs, memberships, roles, archive, writes, usedNodes, usedGroups, usedPubs)
    }

    /** What the observer sees once a transaction has committed. */
    ghost method Observed()
      modifies this`archive
      ensures Abs() == Observe(old(Abs()))
    {
      archive := archive + (set k | k in keys :: keys[k].wrapped) + (set k | k in members :: members[k].wrapped);
    }

    /** Strict mode: locks the group rows in id order and refuses the first stale one. */
    method AssertFreshPrincipalKeys(org: OrgId, shares: seq<Share>, orgGeneration: Option<nat>) returns (e: Option<Error>)
      ensures e == FreshnessError(orgs, groups, org, shares, orgGeneration)
    {
      var toOrg := exists sh | sh in shares :: sh.principal.Org?;
      var toGroup := exists sh | sh in shares :: sh.principal.Group?;
      if !toOrg && !toGroup { return None; }
      if exists sh | sh in shares :: sh.principal.Org? && sh.principal.org != org { return Some(BadRequest); }
      if org !in orgs { return Some(NotFound); }
      if toOrg {
        if orgGeneration.None? { return Some(ClientOutdated); }
        if orgs[org].keyGeneration != orgGeneration.value || orgs[org].rotationRequired { return Some(Conflict); }
      }
      var sorted := GroupShares(shares);
      var i := 0;
      while i < |sorted|
        invariant 0 <= i <= |sorted|
        invariant FirstShareError(groups, org, sorted) == FirstShareError(groups, org, sorted[i..])
      {
        var sh := sorted[i];
        assert sorted[i..][0] == sh && sorted[i..][1..] == sorted[i + 1..];
        if sh.groupPub.None? { return Some(ClientOutdated); }
        var g := sh.principal.group;
        if g !in groups || groups[g].org != org { return Some(BadRequest); }
        if groups[g].pub != sh.groupPub.value || groups[g].rotationRequired { return Some(Conflict); }
        i := i + 1;
      }
      e := None;
    }

    method CreateGroup(org: OrgId, group: GroupId, pub: PubKey, initial: seq<(UserId, bool)>) returns (e: Option<Error>)
      modifies this
      ensures Abs() == Step(old(Abs()), Request.CreateGroup(org, group, pub, initial))
      ensures e == Refusal(old(Abs()), Request.CreateGroup(org, group, pub, initial))
    {
      if exists m | m in initial :: (org, m.0) !in memberships { return Some(BadRequest); }
      groups := groups[group := GroupRow(org, pub, false)];
      var i := 0;
      while i < |initial|
        invariant 0 <= i <= |initial|
        invariant members == old(members) + InitialMembers(group, pub, initial[..i])
        invariant nodes == old(nodes) && keys == old(keys) && archive == old(archive) && writes == old(writes)
        invariant groups == old(groups)[group := GroupRow(org, pub, false)]
        invariant usedNodes == old(usedNodes) && usedGroups == old(usedGroups) && usedPubs == old(usedPubs)
      {
        var m := initial[i];
        assert initial[..i + 1][..i] == initial[..i];
        members := members[(group, m.0) := MemberRow(Wrap(UserKey(m.0), GroupKey(group, pub)), m.1)];
        i := i + 1;
      }
      assert initial[..i] == initial;
      usedGroups, usedPubs := usedGroups + {group}, usedPubs + {(group, pub)};
      Observed();
      e := None;
    }

    method AddMember(org: OrgId, group: GroupId, actor: UserId, isOwner: bool, user: UserId, expectedPub: PubKey, manager: bool)
      returns (e: Option<Error>)
      modifies this
      ensures Abs() == Step(old(Abs()), Request.AddMember(org, group, actor, isOwner, user, expectedPub, manager))
      ensures e == Refusal(old(Abs()), Request.AddMember(org, group, actor, isOwner, user, expectedPub, manager))
    {
      if group !in groups || groups[group].org != org { return Some(NotFound); }
      if !isOwner && !((group, actor) in members && members[(group, actor)].manager) { return Some(Forbidden); }
      if (org, user) !in memberships { return Some(BadRequest); }
      e := AssertFreshPrincipalKeys(org, [Share(Group(group), 0, Some(expectedPub), None)], None);
      if e.Some? { return; }
      members := members[(group, user) := MemberRow(Wrap(UserKey(user), GroupKey(group, expectedPub)), manager)];
      Observed();
    }

    /** Flags the nodes and everything below them; returns what it flagged. */
    method MarkRequiredNodeRotations(tops: set<NodeId>) returns (flagged: set<NodeId>)
      modifies this`nodes
      ensures nodes == Flag(old(nodes), Subtree(ParentsOf(old(nodes)), tops))
      ensures flagged == Subtree(ParentsOf(old(nodes)), tops)
    {
      flagged := DescendantClosure(ParentsOf(nodes), tops);
      nodes := map n | n in nodes :: if n in flagged then nodes[n].(rotationRequired := true) else nodes[n];
    }

    /** The checks of a group rotation, under the locks on the group, its members and its node rows. */
    method CheckGroupKeyRotation(org: OrgId, group: GroupId, actor: UserId, isOwner: bool, b: Rotation, remove: Option<UserId>)
      returns (e: Option<Error>)
      ensures e == RotationError(Abs(), RotateGroup(org, group, actor, isOwner, b, remove))
    {
      if group !in groups || groups[group].org != org { return Some(NotFound); }
      if groups[group].pub != b.expectedPub { return Some(Conflict); }
      if b.newPub == b.expectedPub { return Some(BadRequest); }
      if !isOwner && !((group, actor) in members && members[(group, actor)].manager) { return Some(Forbidden); }
      if remove.Some? && (group, remove.value) !in members { return Some(NotFound); }
      var remaining := MembersOf(members, group) - (if remove.Some? then {remove.value} else {});
      if !ExactCoverage(b.members, remaining) { return Some(Conflict); }
      if !ExactCoverage(Listed(b.nodeKeys), SharedNodes(keys, nodes, org, group)) { return Some(Conflict); }
      if exists k | k in b.nodeKeys :: k.0 !in nodes || nodes[k.0].epoch != k.1 { return Some(Conflict); }
      e := None;
    }

    method ApplyGroupKeyRotation(org: OrgId, group: GroupId, actor: UserId, isOwner: bool, b: Rotation, remove: Option<UserId>)
      returns (e: Option<Error>, flagged: set<NodeId>)
      modifies this
      ensures Abs() == Step(old(Abs()), RotateGroup(org, group, actor, isOwner, b, remove))
      ensures e == Refusal(old(Abs()), RotateGroup(org, group, actor, isOwner, b, remove))
      ensures e.None? ==> flagged == Subtree(ParentsOf(old(nodes)), SharedNodes(old(keys), old(nodes), org, group))
    {
      flagged := {};
      e := CheckGroupKeyRotation(org, group, actor, isOwner, b, remove);
      if e.Some? { return; }
      flagged := RewrapGroup(org, group, actor, isOwner, b, remove);
      Observed();
    }

    /** The writes of an accepted rotation. */
    method RewrapGroup(org: OrgId, group: GroupId, ghost actor: UserId, ghost isOwner: bool, b: Rotation, remove: Option<UserId>)
      returns (flagged: set<NodeId>)
      requires RotationError(Abs(), RotateGroup(org, group, actor, isOwner, b, remove)).None?
      modifies this
      ensures Abs() == ApplyRotateGroup(old(Abs()), RotateGroup(org, group, actor, isOwner, b, remove)).value
      ensures flagged == Subtree(ParentsOf(old(nodes)), SharedNodes(old(keys), old(nodes), org, group))
    {
      var shared := SharedNodes(keys, nodes, org, group);
      groups := groups[group := groups[group].(pub := b.newPub, rotationRequired := false)];
      RewrapMembers(group, b, remove);
      RewrapNodes(group, b);
      CoverageMeansAll(old(Abs()), RotateGroup(org, group, actor, isOwner, b, remove), members, keys);
      flagged := MarkRequiredNodeRotations(shared);
      usedPubs := usedPubs + {(group, b.newPub)};
    }

    /** Deletes the removed member, then updates the envelope of each listed member. */
    method RewrapMembers(group: GroupId, b: Rotation, remove: Option<UserId>)
      modifies this`members
      ensures members == RewrappedMembers(old(members), group, b.members, b.newPub, remove)
    {
      members := map k | k in members && !(k.0 == group && remove == Some(k.1)) :: members[k];
      var i := 0;
      while i < |b.members|
        invariant 0 <= i <= |b.members|
        invariant members == RewrappedMembers(old(members), group, b.members[..i], b.newPub, remove)
      {
        var row := (group, b.members[i]);
        RewrapOneMore(old(members), group, b.members[..i], b.members[i], b.newPub, remove);
        assert b.members[..i] + [b.members[i]] == b.members[..i + 1];
        if row in members {
          members := members[row := members[row].(wrapped := Wrap(UserKey(row.1), GroupKey(group, b.newPub)))];
        }
        i := i + 1;
      }
      assert b.members[..i] == b.members;
    }

    /** Updates the envelope of each listed node for the group. */
    method RewrapNodes(group: GroupId, b: Rotation)
      requires forall k :: k in b.nodeKeys ==> k.0 in nodes && nodes[k.0].epoch == k.1
      modifies this`keys
      ensures keys == RewrappedNodes(old(keys), nodes, group, b)
    {
      ghost var listed := Listed(b.nodeKeys);
      var i := 0;
      while i < |b.nodeKeys|
        invariant 0 <= i <= |b.nodeKeys|
        invariant keys == map k | k in old(keys) ::
                    if k.1 == Group(group) && k.0 in listed[..i] then
                      old(keys)[k].(wrapped := Wrap(GroupKey(group, b.newPub), Cek(k.0, if k.0 in nodes then nodes[k.0].epoch else 0)))
                    else old(keys)[k]
      {
        var row := (b.nodeKeys[i].0, Group(group));
        assert b.nodeKeys[i] in b.nodeKeys;
        assert forall n :: n in listed[..i + 1] <==> n in listed[..i] || n == listed[i];
        if row in keys {
          keys := keys[row := keys[row].(wrapped := Wrap(GroupKey(group, b.newPub), Cek(row.0, b.nodeKeys[i].1)))];
        }
        i := i + 1;
      }
      assert listed[..i] == listed;
    }

    method DeleteGroup(org: OrgId, group: GroupId) returns (e: Option<Error>, pending: set<NodeId>)
      modifies this
      ensures Abs() == Step(old(Abs()), Request.DeleteGroup(org, group))
      ensures e == Refusal(old(Abs()), Request.DeleteGroup(org, group))
    {
      if group !in groups || groups[group].org != org { return Some(NotFound), {}; }
      pending := MarkRequiredNodeRotations(set k | k in keys && k.1 == Group(group) :: k.0);
      keys := map k | k in keys && k.1 != Group(group) :: keys[k];
      groups := groups - {group};
      members := map k | k in members && k.0 != group :: members[k];
      Observed();
      e := None;
    }

    /** validateRole for every share, in turn. */
    method ValidateRoles(shares: seq<Share>, org: OrgId) returns (valid: bool)
      ensures valid == RolesOk(roles, org, shares)
    {
      var i := 0;
      while i < |shares|
        invariant 0 <= i <= |shares| && forall j :: 0 <= j < i ==> RoleOk(roles, org, shares[j].role)
      {
        if !RoleOk(roles, org, shares[i].role) { return false; }
        i := i + 1;
      }
      valid := true;
    }

    /** One INSERT INTO node_keys per share. */
    method InsertShares(n: NodeId, epoch: nat, shares: seq<Share>, orgGeneration: Option<nat>)
      modifies this`keys
      ensures keys == old(keys) + RowsOf(n, epoch, shares, orgGeneration)
    {
      var i := 0;
      while i < |shares|
        invariant 0 <= i <= |shares|
        invariant keys == old(keys) + RowsOf(n, epoch, shares[..i], orgGeneration)
      {
        assert shares[..i + 1][..i] == shares[..i];
        keys := keys[(n, shares[i].principal) := RowFor(n, epoch, shares[i], orgGeneration)];
        i := i + 1;
      }
      assert shares[..i] == shares;
    }

    method CreateNode(org: OrgId, node: NodeId, parent: Option<NodeId>, actor: UserId, shares: seq<Share>, orgGeneration: Option<nat>)
      returns (e: Option<Error>)
      modifies this
      ensures Abs() == Step(old(Abs()), Request.CreateNode(org, node, parent, actor, shares, orgGeneration))
      ensures e == Refusal(old(Abs()), Request.CreateNode(org, node, parent, actor, shares, orgGeneration))
    {
      if parent.Some? && parent.value !in nodes { return Some(NotFound); }
      if parent.Some? && nodes[parent.value].org != org { return Some(BadRequest); }
      if org !in orgs { return Some(Forbidden); }
      if !exists sh | sh in shares :: sh.principal == User(actor) { return Some(BadRequest); }
      var valid := ValidateRoles(shares, org);
      if !valid { return Some(BadRequest); }
      e := AssertFreshPrincipalKeys(org, shares, orgGeneration);
      if e.Some? { return; }
      if !Insertable(nodes.Keys, shares) { return Some(ConstraintViolation); }
      nodes := nodes[node := Node(org, parent, actor, 1, false, None, false)];
      InsertShares(node, 1, shares, orgGeneration);
      usedNodes := usedNodes + {node};
      Observed();
    }

    method CheckRotateNode(node: NodeId, expectedEpoch: Option<nat>, shares: seq<Share>, orgGeneration: Option<nat>, keepPrevious: bool)
      returns (e: Option<Error>)
      ensures e == RotateNodeError(Abs(), Request.RotateNode(node, expectedEpoch, shares, orgGeneration, keepPrevious))
    {
      if node !in nodes { return Some(NotFound); }
      var cur := nodes[node];
      if !exists sh | sh in shares :: sh.principal == User(cur.owner) { return Some(BadRequest); }
      var valid := ValidateRoles(shares, cur.org);
      if !valid { return Some(BadRequest); }
      e := AssertFreshPrincipalKeys(cur.org, shares, orgGeneration);
      if e.Some? { return; }
      if expectedEpoch.Some? && expectedEpoch.value != cur.epoch { return Some(Conflict); }
      if (exists k | k in keys :: k.0 == node && k.1.Org?) && !(exists sh | sh in shares :: sh.principal == Org(cur.org)) {
        return Some(BadRequest);
      }
      if !Insertable(nodes.Keys, shares) { return Some(ConstraintViolation); }
      e := None;
    }

    method RotateNode(node: NodeId, expectedEpoch: Option<nat>, shares: seq<Share>, orgGeneration: Option<nat>, keepPrevious: bool)
      returns (e: Option<Error>)
      modifies this
      ensures Abs() == Step(old(Abs()), Request.RotateNode(node, expectedEpoch, shares, orgGeneration, keepPrevious))
      ensures e == Refusal(old(Abs()), Request.RotateNode(node, expectedEpoch, shares, orgGeneration, keepPrevious))
    {
      e := CheckRotateNode(node, expectedEpoch, shares, orgGeneration, keepPrevious);
      if e.Some? { return; }
      ReplaceAcl(node, shares, orgGeneration, keepPrevious);
      assert Abs() == ApplyRotateNode(old(Abs()), Request.RotateNode(node, expectedEpoch, shares, orgGeneration, keepPrevious)).value;
      Observed();
    }

    /** Every row of the node goes, the new ones come, and the epoch moves on. */
    method ReplaceAcl(node: NodeId, shares: seq<Share>, orgGeneration: Option<nat>, keepPrevious: bool)
      requires node in nodes
      modifies this`keys, this`nodes, this`archive
      ensures nodes == old(nodes)[node := old(nodes)[node].(epoch := old(nodes)[node].epoch + 1, rotationRequired := false)]
      ensures keys == (map k | k in old(keys) && k.0 != node :: old(keys)[k])
                      + RowsOf(node, old(nodes)[node].epoch + 1, shares, orgGeneration)
      ensures archive == old(archive) + PreviousKeyLink(node, old(nodes)[node].epoch, keepPrevious)
    {
      var cur := nodes[node];
      keys := map k | k in keys && k.0 != node :: keys[k];
      InsertShares(node, cur.epoch + 1, shares, orgGeneration);
      nodes := nodes[node := cur.(epoch := cur.epoch + 1, rotationRequired := false)];
      archive := archive + PreviousKeyLink(node, cur.epoch, keepPrevious);
    }

    /** PATCH with a parentId: the loop check, the guarded UPDATE, then the inherited rows of the subtree go. */
    method MoveNode(node: NodeId, parent: Option<NodeId>) returns (e: Option<Error>)
      modifies this
      ensures Abs() == Step(old(Abs()), Request.MoveNode(node, parent))
      ensures e == Refusal(old(Abs()), Request.MoveNode(node, parent))
    {
      if node !in nodes { return Some(NotFound); }
      if parent.Some? {
        if parent.value !in nodes { return Some(NotFound); }
        if nodes[parent.value].org != nodes[node].org { return Some(BadRequest); }
        if parent.value == node { return Some(BadRequest); }
        var below := DescendantClosure(ParentsOf(nodes), {node});
        if parent.value in below { return Some(BadRequest); }
      }
      if nodes[node].rotationRequired { return Some(Conflict); }
      nodes := nodes[node := nodes[node].(parent := parent)];
      var moved := DescendantClosure(ParentsOf(nodes), {node});
      keys := map k | k in keys && !(k.0 in moved && keys[k].inheritedFrom.Some?) :: keys[k];
      Observed();
      e := None;
    }

    method PutContent(node: NodeId, base: ContentBase, newVersion: VersionId) returns (e: Option<Error>)
      modifies this
      ensures Abs() == Step(old(Abs()), Request.PutContent(node, base, newVersion))
      ensures e == Refusal(old(Abs()), Request.PutContent(node, base, newVersion))
    {
      if node !in nodes { return Some(NotFound); }
      var cur := nodes[node];
      if AssertContentBase(base, cur.version, cur.epoch, cur.rotationRequired).Some? { return Some(Conflict); }
      nodes := nodes[node := cur.(version := Some(newVersion))];
      writes := writes + [Write(node, cur.epoch)];
      Observed();
      e := None;
    }

    method RelayUpdate(node: NodeId, peerEpoch: nat) returns (e: Option<Error>)
      modifies this
      ensures Abs() == Step(old(Abs()), Request.RelayUpdate(node, peerEpoch))
      ensures e == Refusal(old(Abs()), Request.RelayUpdate(node, peerEpoch))
    {
      if node !in nodes || nodes[node].rotationRequired || nodes[node].epoch != peerEpoch { return Some(Conflict); }
      writes := writes + [Write(node, peerEpoch)];
      Observed();
      e := None;
    }

    method Trash(node: NodeId) returns (e: Option<Error>)
      modifies this
      ensures Abs() == Step(old(Abs()), Request.Trash(node))
      ensures e == Refusal(old(Abs()), Request.Trash(node))
    {
      if node !in nodes { return Some(NotFound); }
      nodes := nodes[node := nodes[node].(trashed := true)];
      Observed();
      e := None;
    }

    method Restore(node: NodeId) returns (e: Option<Error>)
      modifies this
      ensures Abs() == Step(old(Abs()), Request.Restore(node))
      ensures e == Refusal(old(Abs()), Request.Restore(node))
    {
      if node !in nodes { return Some(NotFound); }
      nodes := nodes[node := nodes[node].(trashed := false)];
      Observed();
      e := None;
    }

    method Purge(node: NodeId) returns (e: Option<Error>)
      modifies this
      ensures Abs() == Step(old(Abs()), Request.Purge(node))
      ensures e == Refusal(old(Abs()), Request.Purge(node))
    {
      if node !in nodes { return Some(NotFound); }
      if !nodes[node].trashed { return Some(BadRequest); }
      var gone := DescendantClosure(ParentsOf(nodes), {node});
      nodes := nodes - gone;
      keys := Detach(keys, gone);
      Observed();
      e := None;
    }
  }

  function RewrappedMembers(members: MemberTable, group: GroupId, listed: seq<UserId>, pub: PubKey, remove: Option<UserId>)
    : MemberTable
  {
    map k | k in members && !(k.0 == group && remove == Some(k.1)) ::
      if k.0 == group && k.1 in listed then members[k].(wrapped := Wrap(UserKey(k.1), GroupKey(group, pub)))
      else members[k]
  }

  lemma RewrapOneMore(m0: MemberTable, group: GroupId, listed: seq<UserId>, u: UserId, pub: PubKey, remove: Option<UserId>)
    ensures var m, row := RewrappedMembers(m0, group, listed, pub, remove), (group, u);
            RewrappedMembers(m0, group, listed + [u], pub, remove)
            == if row in m then m[row := m[row].(wrapped := Wrap(UserKey(u), GroupKey(group, pub)))] else m
  {
    assert forall v :: v in listed + [u] <==> v in listed || v == u;
  }

  function RewrappedNodes(keys: KeyTable, nodes: map<NodeId, Node>, group: GroupId, b: Rotation): KeyTable {
    map k | k in keys ::
      if k.1 == Group(group) && k.0 in Listed(b.nodeKeys) then
        keys[k].(wrapped := Wrap(GroupKey(group, b.newPub), Cek(k.0, if k.0 in nodes then nodes[k.0].epoch else 0)))
      else keys[k]
  }

  /** Updating the listed rows updates every row of the group, because the lists cover them exactly. */
  lemma CoverageMeansAll(s: State, r: Request, members: MemberTable, keys: KeyTable)
    requires r.RotateGroup? && RotationError(s, r).None?
    requires members == RewrappedMembers(s.members, r.group, r.body.members, r.body.newPub, r.remove)
    requires keys == RewrappedNodes(s.keys, s.nodes, r.group, r.body)
    ensures members == ApplyRotateGroup(s, r).value.members
    ensures keys == ApplyRotateGroup(s, r).value.keys
  {
    ExactCoverageIff(r.body.members, Remaining(s, r));
    ExactCoverageIff(Listed(r.body.nodeKeys), SharedWith(s, r.org, r.group));
    var t := ApplyRotateGroup(s, r).value;
    forall k | k in members
      ensures k in t.members && members[k] == t.members[k]
    {
      assert k.0 == r.group ==> k.1 in MembersOf(s.members, r.group);
      assert k.0 == r.group ==> k.1 in ToSet(r.body.members);
    }
    forall k | k in keys
      ensures k in t.keys && keys[k] == t.keys[k]
    {
      assert k.0 in SharedWith(s, r.org, r.group) <==> k.0 in ToSet(Listed(r.body.nodeKeys));
    }
  }

  /** The error a request is answered with, if it is refused. */
  ghost function Refusal(s: State, r: Request): Option<Error> {
    var res := Apply(s, r);
    if res.Err? then Some(res.error) else None
  }
}
