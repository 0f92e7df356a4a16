/** What every request keeps, and what it means for the people who must keep their access. */
module DriveInvariant {
  import opened Prelude
  import opened Forest
  import opened KeyGraph
  import opened Preconditions
  import opened DriveModel

  /** The tree is a forest and each tree lies in one organisation. */
  ghost predicate TreeOk(s: State) {
    && IsForest(ParentsOf(s.nodes))
    && (forall n :: n in s.nodes ==> s.nodes[n].org in s.orgs && s.nodes[n].epoch >= 1)
    && (forall n :: n in s.nodes && s.nodes[n].parent.Some? && s.nodes[n].parent.value in s.nodes ==>
                      s.nodes[s.nodes[n].parent.value].org == s.nodes[n].org)
  }

  /** The principal of an ACL row exists in the organisation of the node. */
  predicate InOrg(s: State, p: Principal, org: OrgId) {
    match p
    case User(_) => true
    case Group(g) => g in s.groups && s.groups[g].org == org
    case Org(o) => o == org
  }

  predicate KeyRowOk(s: State, k: (NodeId, Principal), row: KeyRow) {
    && k.0 in s.nodes && s.nodes[k.0].org in s.orgs
    && InOrg(s, k.1, s.nodes[k.0].org)
    && row.wrapped == Wrap(CurrentKey(s, k.1), Cek(k.0, s.nodes[k.0].epoch))
    && (row.inheritedFrom.Some? ==> row.inheritedFrom.value in s.nodes)
    && RoleOk(s.roles, s.nodes[k.0].org, row.role)
  }

  /** Every ACL row opens the CURRENT node key with the CURRENT key of its principal. */
  predicate KeysOk(s: State) {
    forall k :: k in s.keys ==> KeyRowOk(s, k, s.keys[k])
  }

  /** Every membership row opens the current key of the group. */
  predicate MembersOk(s: State) {
    forall k :: k in s.members ==>
      && k.0 in s.groups
      && s.members[k].wrapped == Wrap(UserKey(k.1), GroupKey(k.0, s.groups[k.0].pub))
  }

  predicate KeyKnown(s: State, k: Key) {
    match k
    case Cek(n, e) => n in s.usedNodes && (n in s.nodes ==> e <= s.nodes[n].epoch)
    case GroupKey(g, p) => (g, p) in s.usedPubs
    case _ => true
  }

  /** No envelope speaks of a key that does not exist yet. */
  ghost predicate ArchiveOk(s: State) {
    forall w :: w in s.archive ==> WellShaped(w) && KeyKnown(s, w.under) && KeyKnown(s, w.secret)
  }

  /** Whoever was ever given the current key of a group in good standing is a member now. */
  predicate HoldersOk(s: State) {
    forall w :: w in s.archive && w.under.UserKey? && w.secret.GroupKey?
                && w.secret.group in s.groups && !s.groups[w.secret.group].rotationRequired
                && w.secret.pub == s.groups[w.secret.group].pub
                ==> (w.secret.group, w.under.user) in s.members
  }

  predicate UsedOk(s: State) {
    && s.nodes.Keys <= s.usedNodes
    && s.groups.Keys <= s.usedGroups
    && (forall p :: p in s.usedPubs ==> p.0 in s.usedGroups)
    && (forall g :: g in s.groups ==> (g, s.groups[g].pub) in s.usedPubs)
  }

  /** What the tables and the observer's record keep, before and after the observer looks at the tables. */
  ghost predicate TablesOk(s: State) {
    TreeOk(s) && KeysOk(s) && MembersOk(s) && ArchiveOk(s) && HoldersOk(s) && UsedOk(s)
  }

  predicate Observed(s: State) {
    && (forall k :: k in s.keys ==> s.keys[k].wrapped in s.archive)
    && (forall k :: k in s.members ==> s.members[k].wrapped in s.archive)
  }

  ghost predicate Inv(s: State) {
    TablesOk(s) && Observed(s)
  }

  lemma ObserveKeeps(s: State)
    requires TablesOk(s)
    ensures Inv(Observe(s))
  {
    var t := Observe(s);
    forall w | w in t.archive
      ensures WellShaped(w) && KeyKnown(t, w.under) && KeyKnown(t, w.secret)
    {
      if w !in s.archive {
        if k :| k in s.keys && s.keys[k].wrapped == w {
        } else {
          var m :| m in s.members && s.members[m].wrapped == w;
        }
      }
    }
    forall w | w in t.archive && w.under.UserKey? && w.secret.GroupKey? && w !in s.archive
      ensures (w.secret.group, w.under.user) in t.members
    {
      var m :| m in s.members && s.members[m].wrapped == w;
    }
    assert HoldersOk(t);
  }

  // ---------------------------------------------------------------- the freshness gate

  predicate NamesCurrentKey(s: State, org: OrgId, sh: Share, orgGeneration: Option<nat>) {
    && InOrg(s, sh.principal, org)
    && (sh.principal.Org? ==> org in s.orgs && !s.orgs[org].rotationRequired)
    && (sh.principal.Group? ==> !s.groups[sh.principal.group].rotationRequired)
    && NamedKey(sh, orgGeneration) == CurrentKey(s, sh.principal)
  }

  /** The gate passes only shares wrapped to the current key of a principal of the organisation. */
  lemma FreshnessGate(s: State, org: OrgId, shares: seq<Share>, orgGeneration: Option<nat>)
    requires FreshnessError(s.orgs, s.groups, org, shares, orgGeneration).None?
    ensures forall sh :: sh in shares ==> NamesCurrentKey(s, org, sh, orgGeneration)
  {
    forall sh | sh in shares
      ensures NamesCurrentKey(s, org, sh, orgGeneration)
    {
      if sh.principal.Group? {
        assert sh in GroupShares(shares);
        assert GroupShareError(s.groups, org, sh).None?;
      }
    }
  }

  // ---------------------------------------------------------------- preservation, request by request

  lemma {:induction false} InitialMembersContents(g: GroupId, pub: PubKey, initial: seq<(UserId, bool)>)
    ensures forall k :: k in InitialMembers(g, pub, initial) ==>
              k.0 == g && InitialMembers(g, pub, initial)[k].wrapped == Wrap(UserKey(k.1), GroupKey(g, pub))
  {
    if |initial| > 0 {
      InitialMembersContents(g, pub, initial[..|initial| - 1]);
    }
  }

  /** Flags, versions and epochs do not concern the tree. */
  lemma SameTree(s: State, t: State)
    requires TreeOk(s) && t.orgs == s.orgs && t.nodes.Keys == s.nodes.Keys
    requires forall n :: n in s.nodes ==>
      t.nodes[n].parent == s.nodes[n].parent && t.nodes[n].org == s.nodes[n].org && t.nodes[n].epoch >= s.nodes[n].epoch
    ensures TreeOk(t)
  {
    assert ParentsOf(t.nodes) == ParentsOf(s.nodes);
  }

  /** Epochs only grow and identifiers are never reused. */
  predicate Grows(s: State, t: State) {
    && s.usedNodes <= t.usedNodes && s.usedPubs <= t.usedPubs
    && (forall n :: n in t.nodes ==> n !in s.usedNodes || (n in s.nodes && s.nodes[n].epoch <= t.nodes[n].epoch))
  }

  lemma ArchiveFrame(s: State, t: State)
    requires ArchiveOk(s) && Grows(s, t)
    requires forall w :: w in t.archive && w !in s.archive ==> WellShaped(w) && KeyKnown(t, w.under) && KeyKnown(t, w.secret)
    ensures ArchiveOk(t)
  {
    forall k: Key | KeyKnown(s, k)
      ensures KeyKnown(t, k)
    {
    }
  }

  /** A group keeps its key and its members, or has a key nobody was ever given. */
  predicate SameOrNewKey(s: State, t: State, g: GroupId)
    requires g in t.groups
  {
    || (g, t.groups[g].pub) !in s.usedPubs
    || (&& g in s.groups && s.groups[g] == t.groups[g]
        && (forall k | k in s.members :: k.0 == g ==> k in t.members))
  }

  lemma HoldersFrame(s: State, t: State)
    requires ArchiveOk(s) && HoldersOk(s)
    requires forall w :: w in t.archive && w !in s.archive ==> w.under.Cek?
    requires forall g :: g in t.groups ==> SameOrNewKey(s, t, g)
    ensures HoldersOk(t)
  {
  }

  lemma CreateGroupKeeps(s: State, r: Request)
    requires Inv(s) && r.CreateGroup? && Honest(s, r) && ApplyCreateGroup(s, r).Ok?
    ensures TablesOk(ApplyCreateGroup(s, r).value)
  {
    var t := ApplyCreateGroup(s, r).value;
    InitialMembersContents(r.group, r.pub, r.initial);
    SameTree(s, t);
    ArchiveFrame(s, t);
    HoldersFrame(s, t);
  }

  lemma AddMemberKeeps(s: State, r: Request)
    requires Inv(s) && r.AddMember? && ApplyAddMember(s, r).Ok?
    ensures TablesOk(ApplyAddMember(s, r).value)
  {
    var t := ApplyAddMember(s, r).value;
    var shares := [Share(Group(r.group), 0, Some(r.expectedPub), None)];
    FreshnessGate(s, r.org, shares, None);
    assert shares[0] in shares;
    SameTree(s, t);
    ArchiveFrame(s, t);
    HoldersFrame(s, t);
  }

  /** The rows of the rotated group, and only they, are rewrapped. */
  lemma RotateGroupRows(s: State, r: Request)
    requires KeysOk(s) && MembersOk(s) && r.RotateGroup? && ApplyRotateGroup(s, r).Ok?
    ensures KeysOk(ApplyRotateGroup(s, r).value) && MembersOk(ApplyRotateGroup(s, r).value)
  {
    var t := ApplyRotateGroup(s, r).value;
    assert t.nodes.Keys == s.nodes.Keys;
    forall k | k in t.keys
      ensures KeyRowOk(t, k, t.keys[k])
    {
      assert KeyRowOk(s, k, s.keys[k]);
      assert k.1 == Group(r.group) ==> k.0 in SharedWith(s, r.org, r.group);
    }
  }

  lemma RotateGroupKeeps(s: State, r: Request)
    requires Inv(s) && r.RotateGroup? && Honest(s, r) && ApplyRotateGroup(s, r).Ok?
    ensures TablesOk(ApplyRotateGroup(s, r).value)
  {
    var t := ApplyRotateGroup(s, r).value;
    RotateGroupRows(s, r);
    SameTree(s, t);
    ArchiveFrame(s, t);
    HoldersFrame(s, t);
  }

  lemma DeleteGroupRows(s: State, r: Request)
    requires KeysOk(s) && MembersOk(s) && r.DeleteGroup? && ApplyDeleteGroup(s, r).Ok?
    ensures KeysOk(ApplyDeleteGroup(s, r).value) && MembersOk(ApplyDeleteGroup(s, r).value)
  {
    var t := ApplyDeleteGroup(s, r).value;
    assert t.nodes.Keys == s.nodes.Keys;
  }

  lemma DeleteGroupKeeps(s: State, r: Request)
    requires Inv(s) && r.DeleteGroup? && ApplyDeleteGroup(s, r).Ok?
    ensures TablesOk(ApplyDeleteGroup(s, r).value)
  {
    var t := ApplyDeleteGroup(s, r).value;
    DeleteGroupRows(s, r);
    SameTree(s, t);
    ArchiveFrame(s, t);
    HoldersFrame(s, t);
  }

  /** A row made from a request that passed the gate, in a state t that holds the node it is for. */
  lemma RequestRow(t: State, org: OrgId, n: NodeId, epoch: nat, shares: seq<Share>, orgGeneration: Option<nat>,
                   existing: set<NodeId>, k: (NodeId, Principal))
    requires FreshnessError(t.orgs, t.groups, org, shares, orgGeneration).None?
    requires Insertable(existing, shares) && existing <= t.nodes.Keys && RolesOk(t.roles, org, shares)
    requires n in t.nodes && t.nodes[n].org == org && t.nodes[n].epoch == epoch && org in t.orgs
    requires k in RowsOf(n, epoch, shares, orgGeneration)
    ensures KeyRowOk(t, k, RowsOf(n, epoch, shares, orgGeneration)[k])
  {
    RowsOfContents(n, epoch, shares, orgGeneration);
    var sh :| sh in shares && sh.principal == k.1
              && RowsOf(n, epoch, shares, orgGeneration)[k] == RowFor(n, epoch, sh, orgGeneration);
    FreshnessGate(t, org, shares, orgGeneration);
    assert NamesCurrentKey(t, org, sh, orgGeneration);
  }

  lemma CreateNodeRows(s: State, r: Request)
    requires KeysOk(s) && MembersOk(s) && r.CreateNode? && r.node !in s.nodes && ApplyCreateNode(s, r).Ok?
    ensures KeysOk(ApplyCreateNode(s, r).value) && MembersOk(ApplyCreateNode(s, r).value)
  {
    var t := ApplyCreateNode(s, r).value;
    forall k | k in t.keys
      ensures KeyRowOk(t, k, t.keys[k])
    {
      if k in RowsOf(r.node, 1, r.shares, r.orgGeneration) {
        RequestRow(t, r.org, r.node, 1, r.shares, r.orgGeneration, s.nodes.Keys, k);
      } else {
        assert KeyRowOk(s, k, s.keys[k]);
      }
    }
  }

  lemma CreateNodeTree(s: State, r: Request)
    requires TreeOk(s) && r.CreateNode? && r.node !in s.nodes && ApplyCreateNode(s, r).Ok?
    ensures TreeOk(ApplyCreateNode(s, r).value)
  {
    var t := ApplyCreateNode(s, r).value;
    CreateKeepsForest(ParentsOf(s.nodes), r.node, r.parent);
    assert ParentsOf(t.nodes) == ParentsOf(s.nodes)[r.node := r.parent];
    forall n | n in t.nodes && t.nodes[n].parent.Some? && t.nodes[n].parent.value in t.nodes
      ensures t.nodes[t.nodes[n].parent.value].org == t.nodes[n].org
    {
      if n != r.node {
        assert ParentsOf(s.nodes)[n].value in ParentsOf(s.nodes);
      }
    }
  }

  lemma CreateNodeKeeps(s: State, r: Request)
    requires Inv(s) && r.CreateNode? && Honest(s, r) && ApplyCreateNode(s, r).Ok?
    ensures TablesOk(ApplyCreateNode(s, r).value)
  {
    var t := ApplyCreateNode(s, r).value;
    CreateNodeTree(s, r);
    CreateNodeRows(s, r);
    ArchiveFrame(s, t);
    HoldersFrame(s, t);
  }

  lemma RotateNodeRows(s: State, r: Request)
    requires TreeOk(s) && KeysOk(s) && MembersOk(s) && r.RotateNode? && ApplyRotateNode(s, r).Ok?
    ensures KeysOk(ApplyRotateNode(s, r).value) && MembersOk(ApplyRotateNode(s, r).value)
  {
    var t := ApplyRotateNode(s, r).value;
    var node := s.nodes[r.node];
    assert t.nodes.Keys == s.nodes.Keys;
    forall k | k in t.keys
      ensures KeyRowOk(t, k, t.keys[k])
    {
      if k in RowsOf(r.node, node.epoch + 1, r.shares, r.orgGeneration) {
        RequestRow(t, node.org, r.node, node.epoch + 1, r.shares, r.orgGeneration, s.nodes.Keys, k);
      } else {
        assert KeyRowOk(s, k, s.keys[k]);
      }
    }
  }

  lemma RotateNodeArchive(s: State, r: Request)
    requires ArchiveOk(s) && HoldersOk(s) && UsedOk(s) && r.RotateNode? && ApplyRotateNode(s, r).Ok?
    ensures ArchiveOk(ApplyRotateNode(s, r).value) && HoldersOk(ApplyRotateNode(s, r).value)
  {
    var t := ApplyRotateNode(s, r).value;
    assert Grows(s, t);
    ArchiveFrame(s, t);
    HoldersFrame(s, t);
  }

  lemma RotateNodeKeeps(s: State, r: Request)
    requires Inv(s) && r.RotateNode? && ApplyRotateNode(s, r).Ok?
    ensures TablesOk(ApplyRotateNode(s, r).value)
  {
    var t := ApplyRotateNode(s, r).value;
    RotateNodeRows(s, r);
    RotateNodeArchive(s, r);
    SameTree(s, t);
  }

  lemma MoveNodeTree(s: State, r: Request)
    requires TreeOk(s) && r.MoveNode? && ApplyMoveNode(s, r).Ok?
    ensures TreeOk(ApplyMoveNode(s, r).value)
  {
    var t := ApplyMoveNode(s, r).value;
    MoveKeepsForestIff(ParentsOf(s.nodes), r.node, r.parent);
    assert ParentsOf(t.nodes) == ParentsOf(s.nodes)[r.node := r.parent];
  }

  lemma MoveNodeKeeps(s: State, r: Request)
    requires Inv(s) && r.MoveNode? && ApplyMoveNode(s, r).Ok?
    ensures TablesOk(ApplyMoveNode(s, r).value)
  {
    var t := ApplyMoveNode(s, r).value;
    MoveNodeTree(s, r);
    assert t.nodes.Keys == s.nodes.Keys;
    ArchiveFrame(s, t);
    HoldersFrame(s, t);
  }

  lemma PutContentKeeps(s: State, r: Request)
    requires Inv(s) && r.PutContent? && ApplyPutContent(s, r).Ok?
    ensures TablesOk(ApplyPutContent(s, r).value)
  {
    var t := ApplyPutContent(s, r).value;
    SameTree(s, t);
    ArchiveFrame(s, t);
    HoldersFrame(s, t);
  }

  lemma RelayUpdateKeeps(s: State, r: Request)
    requires Inv(s) && r.RelayUpdate? && ApplyRelayUpdate(s, r).Ok?
    ensures TablesOk(ApplyRelayUpdate(s, r).value)
  {
    var t := ApplyRelayUpdate(s, r).value;
    SameTree(s, t);
    ArchiveFrame(s, t);
    HoldersFrame(s, t);
  }

  lemma MarkKeeps(s: State, n: NodeId, trashed: bool)
    requires Inv(s) && ApplyMark(s, n, trashed).Ok?
    ensures TablesOk(ApplyMark(s, n, trashed).value)
  {
    var t := ApplyMark(s, n, trashed).value;
    SameTree(s, t);
    ArchiveFrame(s, t);
    HoldersFrame(s, t);
  }

  lemma PurgeKeeps(s: State, r: Request)
    requires Inv(s) && r.Purge? && ApplyPurge(s, r).Ok?
    ensures TablesOk(ApplyPurge(s, r).value)
  {
    var t := ApplyPurge(s, r).value;
    CascadeKeepsForest(ParentsOf(s.nodes), r.node);
    assert ParentsOf(t.nodes) == ParentsOf(s.nodes) - Subtree(ParentsOf(s.nodes), {r.node});
    ArchiveFrame(s, t);
    HoldersFrame(s, t);
  }

  lemma TablesKept(s: State, r: Request)
    requires Inv(s) && Honest(s, r) && Apply(s, r).Ok?
    ensures TablesOk(Apply(s, r).value)
  {
    match r
    case CreateGroup(_, _, _, _) => CreateGroupKeeps(s, r);
    case AddMember(_, _, _, _, _, _, _) => AddMemberKeeps(s, r);
    case RotateGroup(_, _, _, _, _, _) => RotateGroupKeeps(s, r);
    case DeleteGroup(_, _) => DeleteGroupKeeps(s, r);
    case CreateNode(_, _, _, _, _, _) => CreateNodeKeeps(s, r);
    case RotateNode(_, _, _, _, _) => RotateNodeKeeps(s, r);
    case MoveNode(_, _) => MoveNodeKeeps(s, r);
    case PutContent(_, _, _) => PutContentKeeps(s, r);
    case RelayUpdate(_, _) => RelayUpdateKeeps(s, r);
    case Trash(n) => MarkKeeps(s, n, true);
    case Restore(n) => MarkKeeps(s, n, false);
    case Purge(_) => PurgeKeeps(s, r);
  }

  lemma StepKeeps(s: State, r: Request)
    requires Inv(s) && Honest(s, r)
    ensures Inv(Step(s, r))
  {
    if Apply(s, r).Ok? {
      TablesKept(s, r);
      ObserveKeeps(Apply(s, r).value);
    }
  }

  lemma {:induction false} RunKeeps(s: State, rs: seq<Request>)
    requires Inv(s) && HonestRun(s, rs)
    ensures Inv(Run(s, rs))
    decreases |rs|
  {
    if |rs| > 0 {
      StepKeeps(s, rs[0]);
      RunKeeps(Step(s, rs[0]), rs[1..]);
    }
  }

  /** From a new Drive, with its organisations, members, roles and the recovery keys given to
      administrators, the invariant holds after every run. */
  lemma NewDriveRuns(orgs: map<OrgId, OrgRow>, memberships: set<(OrgId, UserId)>, roles: RoleTable, recovery: set<Wrap>,
                     rs: seq<Request>)
    requires forall w :: w in recovery ==> w.under.UserKey? && w.secret.OrgKey?
    requires HonestRun(NewDrive(orgs, memberships, roles, recovery), rs)
    ensures Inv(Run(NewDrive(orgs, memberships, roles, recovery), rs))
  {
    RunKeeps(NewDrive(orgs, memberships, roles, recovery), rs);
  }

  function NewDrive(orgs: map<OrgId, OrgRow>, memberships: set<(OrgId, UserId)>, roles: RoleTable, recovery: set<Wrap>): State {
    State(map[], map[], map[], map[], orgs, memberships, roles, recovery, [], {}, {}, {})
  }
}
