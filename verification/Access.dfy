/**
 Node authorisation (server/src/rbac/engine.ts): the union of the roles granted to the user, directly
 or through a group, on the node and on every ancestor, plus the intrinsic permissions of the node
 owner and the organisation owner. Only active members of the organisation get anything.
 */
module Access {
  import opened Prelude
  import opened Forest
  import opened KeyGraph
  import opened DriveModel
  import opened DriveInvariant

  type Permission = string

  /** Role permissions and organisation owners, read by the resolver. */
  datatype Directory = Directory(roles: map<RoleId, set<Permission>>, orgOwner: map<OrgId, UserId>)

  datatype NodeAccess = NodeAccess(org: OrgId, owner: UserId, isOwner: bool, permissions: set<Permission>, accessible: bool)

  const OWNER_NODE_PERMS: set<Permission> := {
    "node.view", "node.download", "node.export", "node.print", "node.create", "node.edit", "node.rename",
    "node.move", "node.copy", "node.delete", "node.restore", "node.comment", "node.version.view",
    "node.version.restore", "node.share.internal", "node.share.link", "node.share.manage",
    "node.sign.request", "node.acl.view", "node.acl.manage"
  }

  /** Row k speaks for u: u's own row, or the row of a group of the organisation u belongs to. */
  predicate SpeaksFor(s: State, k: (NodeId, Principal), u: UserId, org: OrgId) {
    match k.1
    case User(v) => v == u
    case Group(g) => (g, u) in s.members && g in s.groups && s.groups[g].org == org
    case Org(_) => false
  }

  predicate GrantsRow(s: State, d: Directory, k: (NodeId, Principal), u: UserId, org: OrgId) {
    k in s.keys && SpeaksFor(s, k, u, org) && s.keys[k].role in d.roles
  }

  /** u is granted p by some row on n or on a folder above it. */
  ghost predicate AclGrants(s: State, d: Directory, u: UserId, n: NodeId, p: Permission)
    requires n in s.nodes
  {
    exists k :: GrantsRow(s, d, k, u, s.nodes[n].org) && k.0 in s.nodes && AtOrBelow(ParentsOf(s.nodes), n, k.0)
                && p in d.roles[s.keys[k].role]
  }

  ghost predicate HasAclRow(s: State, d: Directory, u: UserId, n: NodeId)
    requires n in s.nodes
  {
    exists k :: GrantsRow(s, d, k, u, s.nodes[n].org) && k.0 in s.nodes && AtOrBelow(ParentsOf(s.nodes), n, k.0)
  }

  predicate OrgOwner(d: Directory, org: OrgId, u: UserId) {
    org in d.orgOwner && d.orgOwner[org] == u
  }

  /** resolveNodeAccess: null when the node does not exist. */
  method ResolveNodeAccess(s: State, d: Directory, u: UserId, n: NodeId) returns (r: Option<NodeAccess>)
    ensures r.None? <==> n !in s.nodes
    ensures r.Some? && (s.nodes[n].org, u) !in s.memberships ==> r.value.permissions == {} && !r.value.accessible
    ensures r.Some? && (s.nodes[n].org, u) in s.memberships ==>
              var intrinsic := s.nodes[n].owner == u || OrgOwner(d, s.nodes[n].org, u);
              && (forall p :: p in r.value.permissions <==> AclGrants(s, d, u, n, p) || (intrinsic && p in OWNER_NODE_PERMS))
              && (r.value.accessible <==> HasAclRow(s, d, u, n) || intrinsic)
  {
    if n !in s.nodes { return None; }
    var node := s.nodes[n];
    if (node.org, u) !in s.memberships {
      return Some(NodeAccess(node.org, node.owner, false, {}, false));
    }
    var above := AncestorClosure(ParentsOf(s.nodes), n);
    var rows := set k | k in s.keys && k.0 in above && GrantsRow(s, d, k, u, node.org);
    var permissions: set<Permission> := {};
    var rest := rows;
    while rest != {}
      invariant rest <= rows
      invariant forall p :: p in permissions <==> exists k :: k in rows - rest && p in d.roles[s.keys[k].role]
      decreases rest
    {
      var k :| k in rest;
      permissions := permissions + d.roles[s.keys[k].role];
      rest := rest - {k};
    }
    var isOwner := node.owner == u;
    var intrinsic := isOwner || OrgOwner(d, node.org, u);
    if intrinsic { permissions := permissions + OWNER_NODE_PERMS; }
    r := Some(NodeAccess(node.org, node.owner, isOwner, permissions, intrinsic || rows != {}));
    RowsAreGrants(s, d, u, n, rows);
  }

  /** The rows selected through the ancestor closure are exactly those the specification speaks of. */
  lemma RowsAreGrants(s: State, d: Directory, u: UserId, n: NodeId, rows: set<(NodeId, Principal)>)
    requires n in s.nodes
    requires rows == set k | k in s.keys && k.0 in Ancestors(ParentsOf(s.nodes), n) && GrantsRow(s, d, k, u, s.nodes[n].org)
    ensures forall p :: AclGrants(s, d, u, n, p) <==> exists k :: k in rows && p in d.roles[s.keys[k].role]
    ensures HasAclRow(s, d, u, n) <==> rows != {}
  {
    forall k
      ensures k in rows <==>
        GrantsRow(s, d, k, u, s.nodes[n].org) && k.0 in s.nodes && AtOrBelow(ParentsOf(s.nodes), n, k.0)
    {
    }
    if rows != {} {
      var k :| k in rows;
    }
  }

  /** Everything at or below a node lies in the organisation of that node. */
  lemma {:induction false} SameOrgBelow(s: State, m: NodeId, n: NodeId, k: nat)
    requires TreeOk(s) && Up(ParentsOf(s.nodes), m, k) == Some(n)
    ensures m in s.nodes && n in s.nodes && s.nodes[m].org == s.nodes[n].org
    decreases k
  {
    if k > 0 {
      SameOrgBelow(s, s.nodes[m].parent.value, n, k - 1);
    }
  }

  /** Sharing a folder cascades: a permission the ACL grants on n it grants on everything below n. */
  lemma GrantsCascade(s: State, d: Directory, u: UserId, n: NodeId, m: NodeId, p: Permission)
    requires TreeOk(s) && n in s.nodes && m in s.nodes && AtOrBelow(ParentsOf(s.nodes), m, n)
    requires AclGrants(s, d, u, n, p)
    ensures AclGrants(s, d, u, m, p)
  {
    var i: nat :| Up(ParentsOf(s.nodes), m, i) == Some(n);
    SameOrgBelow(s, m, n, i);
    var k :| GrantsRow(s, d, k, u, s.nodes[n].org) && k.0 in s.nodes && AtOrBelow(ParentsOf(s.nodes), n, k.0)
             && p in d.roles[s.keys[k].role];
    AtOrBelowTransitive(ParentsOf(s.nodes), m, n, k.0);
    assert GrantsRow(s, d, k, u, s.nodes[m].org);
  }

  /** What the ACL grants on a node is what its own rows grant plus what it grants on the parent. */
  lemma GrantsDecompose(s: State, d: Directory, u: UserId, n: NodeId, p: Permission)
    requires TreeOk(s) && n in s.nodes
    ensures AclGrants(s, d, u, n, p) <==>
      || (exists k :: GrantsRow(s, d, k, u, s.nodes[n].org) && k.0 == n && p in d.roles[s.keys[k].role])
      || (s.nodes[n].parent.Some? && s.nodes[n].parent.value in s.nodes && AclGrants(s, d, u, s.nodes[n].parent.value, p))
  {
    var parents := ParentsOf(s.nodes);
    if AclGrants(s, d, u, n, p) {
      var k :| GrantsRow(s, d, k, u, s.nodes[n].org) && k.0 in s.nodes && AtOrBelow(parents, n, k.0)
               && p in d.roles[s.keys[k].role];
      if k.0 != n {
        var i: nat :| Up(parents, n, i) == Some(k.0);
        var q := s.nodes[n].parent.value;
        assert Up(parents, q, i - 1) == Some(k.0);
        SameOrgBelow(s, n, q, 1) by { assert Up(parents, n, 1) == Up(parents, q, 0); }
        assert AtOrBelow(parents, q, k.0) && GrantsRow(s, d, k, u, s.nodes[q].org);
      }
    }
    if k :| GrantsRow(s, d, k, u, s.nodes[n].org) && k.0 == n && p in d.roles[s.keys[k].role] {
      assert Up(parents, n, 0) == Some(n);
    }
    if s.nodes[n].parent.Some? && s.nodes[n].parent.value in s.nodes && AclGrants(s, d, u, s.nodes[n].parent.value, p) {
      var q := s.nodes[n].parent.value;
      assert Up(parents, n, 1) == Up(parents, q, 0) == Some(q);
      GrantsCascade(s, d, u, q, n, p);
    }
  }
}
