/**
 The key lifecycle of the Drive as a state machine over its tables: nodes, the crypto-ACL
 (`node_keys`), groups and their members. Every request is one atomic step, as its transaction and
 row locks make it. Clients are honest: the envelope a request carries is the one its fields name.
 `archive` records every envelope ever stored, `writes` every content version and every persisted
 collaboration update with the key epoch it was made under; the server keeps neither, an observer does.
 */
module DriveModel {
  import opened Prelude
  import opened Forest
  import opened KeyGraph
  import opened Preconditions

  type RoleId = nat

  datatype Principal = User(user: UserId) | Group(group: GroupId) | Org(org: OrgId)

  datatype Node = Node(
    org: OrgId, parent: Option<NodeId>, owner: UserId,
    epoch: nat, rotationRequired: bool, version: Option<VersionId>, trashed: bool)
  datatype KeyRow = KeyRow(wrapped: Wrap, role: RoleId, inheritedFrom: Option<NodeId>)
  datatype GroupRow = GroupRow(org: OrgId, pub: PubKey, rotationRequired: bool)
  datatype MemberRow = MemberRow(wrapped: Wrap, manager: bool)
  datatype OrgRow = OrgRow(keyGeneration: nat, rotationRequired: bool)
  datatype Write = Write(node: NodeId, epoch: nat)

  type KeyTable = map<(NodeId, Principal), KeyRow>
  type MemberTable = map<(GroupId, UserId), MemberRow>

  /** The organisation a role belongs to, None for the roles every organisation has. */
  type RoleTable = map<RoleId, Option<OrgId>>

  datatype State = State(
    nodes: map<NodeId, Node>, keys: KeyTable, groups: map<GroupId, GroupRow>, members: MemberTable,
    orgs: map<OrgId, OrgRow>, memberships: set<(OrgId, UserId)>, roles: RoleTable,
    archive: set<Wrap>, writes: seq<Write>,
    usedNodes: set<NodeId>, usedGroups: set<GroupId>, usedPubs: set<(GroupId, PubKey)>)

  datatype Error = NotFound | BadRequest | Conflict | Forbidden | ClientOutdated | ConstraintViolation

  // ---------------------------------------------------------------- derived views

  function ParentsOf(nodes: map<NodeId, Node>): Parents {
    map n | n in nodes :: nodes[n].parent
  }

  function MembersOf(members: MemberTable, g: GroupId): set<UserId> {
    set k | k in members && k.0 == g :: k.1
  }

  /** The nodes of organisation org shared with group g. */
  function SharedNodes(keys: KeyTable, nodes: map<NodeId, Node>, org: OrgId, g: GroupId): set<NodeId> {
    set k | k in keys && k.1 == Group(g) && k.0 in nodes && nodes[k.0].org == org :: k.0
  }

  function SharedWith(s: State, org: OrgId, g: GroupId): set<NodeId> {
    SharedNodes(s.keys, s.nodes, org, g)
  }

  /** The ids listed in `nodeKeys`. */
  function Listed(nodeKeys: seq<(NodeId, nat)>): seq<NodeId> {
    seq(|nodeKeys|, i requires 0 <= i < |nodeKeys| => nodeKeys[i].0)
  }

  /** The key a principal holds now. */
  function CurrentKey(s: State, p: Principal): Key
    requires p.Group? ==> p.group in s.groups
    requires p.Org? ==> p.org in s.orgs
  {
    match p
    case User(u) => UserKey(u)
    case Group(g) => GroupKey(g, s.groups[g].pub)
    case Org(o) => OrgKey(o, s.orgs[o].keyGeneration)
  }

  // ---------------------------------------------------------------- request bodies

  /** One entry of `keyShares`; the envelope is made under the key the entry names. */
  datatype Share = Share(principal: Principal, role: RoleId, groupPub: Option<PubKey>, inheritedFrom: Option<NodeId>)

  datatype Rotation = Rotation(expectedPub: PubKey, newPub: PubKey, members: seq<UserId>, nodeKeys: seq<(NodeId, nat)>)

  datatype Request =
    | CreateGroup(org: OrgId, group: GroupId, pub: PubKey, initial: seq<(UserId, bool)>)
    | AddMember(org: OrgId, group: GroupId, actor: UserId, isOwner: bool, user: UserId, expectedPub: PubKey, manager: bool)
    | RotateGroup(org: OrgId, group: GroupId, actor: UserId, isOwner: bool, body: Rotation, remove: Option<UserId>)
    | DeleteGroup(org: OrgId, group: GroupId)
    | CreateNode(org: OrgId, node: NodeId, parent: Option<NodeId>, actor: UserId, shares: seq<Share>, orgGeneration: Option<nat>)
    | RotateNode(node: NodeId, expectedEpoch: Option<nat>, shares: seq<Share>, orgGeneration: Option<nat>, keepPrevious: bool)
    | MoveNode(node: NodeId, parent: Option<NodeId>)
    | PutContent(node: NodeId, base: ContentBase, newVersion: VersionId)
    | RelayUpdate(node: NodeId, peerEpoch: nat)
    | Trash(node: NodeId)
    | Restore(node: NodeId)
    | Purge(node: NodeId)

  // ---------------------------------------------------------------- exactCoverage

  function ToSet<T(==)>(ids: seq<T>): set<T> { set x | x in ids }

  ghost predicate NoDuplicates<T>(ids: seq<T>) {
    forall i, j :: 0 <= i < j < |ids| ==> ids[i] != ids[j]
  }

  /** The three cardinality tests of exactCoverage; rows are unique, so `expected` is a set. */
  predicate ExactCoverage<T(==)>(ids: seq<T>, expected: set<T>) {
    var st := ToSet(ids);
    |st| == |ids| && |st| == |expected| && expected <= st
  }

  lemma {:induction false} ToSetSize<T>(ids: seq<T>)
    ensures |ToSet(ids)| <= |ids|
    ensures |ToSet(ids)| == |ids| <==> NoDuplicates(ids)
  {
    if |ids| > 0 {
      var init, last := ids[..|ids| - 1], ids[|ids| - 1];
      ToSetSize(init);
      assert ids == init + [last];
      assert ToSet(ids) == ToSet(init) + {last};
      if NoDuplicates(ids) {
        assert NoDuplicates(init);
        assert last !in init;
      } else if NoDuplicates(init) {
        assert last in init;
        assert ToSet(ids) == ToSet(init);
      }
    }
  }

  /** The tests accept exactly the duplicate-free listings of the expected rows. */
  lemma ExactCoverageIff<T>(ids: seq<T>, expected: set<T>)
    ensures ExactCoverage(ids, expected) <==> ToSet(ids) == expected && NoDuplicates(ids)
  {
    ToSetSize(ids);
    if ExactCoverage(ids, expected) {
      var st := ToSet(ids);
      if st != expected {
        assert |st - expected| == |st| - |expected|;
        assert st - expected == {};
      }
    }
  }

  // ---------------------------------------------------------------- assertFreshPrincipalKeys

  /** Insertion of a share in a list sorted by group id (the lock order). */
  function InsertShare(sh: Share, sorted: seq<Share>): seq<Share>
    requires sh.principal.Group?
    requires forall x :: x in sorted ==> x.principal.Group?
    ensures forall x :: x in InsertShare(sh, sorted) <==> x == sh || x in sorted
  {
    if |sorted| == 0 || sh.principal.group < sorted[0].principal.group then [sh] + sorted
    else
      var rest := InsertShare(sh, sorted[1..]);
      assert forall x :: x in sorted <==> x == sorted[0] || x in sorted[1..];
      [sorted[0]] + rest
  }

  /** The group shares in the order they are locked and checked. */
  function GroupShares(shares: seq<Share>): (r: seq<Share>)
    ensures forall x :: x in r <==> x in shares && x.principal.Group?
  {
    if |shares| == 0 then []
    else
      var init, last := shares[..|shares| - 1], shares[|shares| - 1];
      assert forall x :: x in shares <==> x == last || x in init;
      if last.principal.Group? then InsertShare(last, GroupShares(init)) else GroupShares(init)
  }

  function GroupShareError(groups: map<GroupId, GroupRow>, org: OrgId, sh: Share): Option<Error>
    requires sh.principal.Group?
  {
    var g := sh.principal.group;
    if sh.groupPub.None? then Some(ClientOutdated)
    else if g !in groups || groups[g].org != org then Some(BadRequest)
    else if groups[g].pub != sh.groupPub.value || groups[g].rotationRequired then Some(Conflict)
    else None
  }

  function FirstShareError(groups: map<GroupId, GroupRow>, org: OrgId, shares: seq<Share>): (r: Option<Error>)
    requires forall x :: x in shares ==> x.principal.Group?
    ensures r.None? <==> forall x :: x in shares ==> GroupShareError(groups, org, x).None?
  {
    if |shares| == 0 then None
    else if GroupShareError(groups, org, shares[0]).Some? then GroupShareError(groups, org, shares[0])
    else
      assert forall x :: x in shares <==> x == shares[0] || x in shares[1..];
      FirstShareError(groups, org, shares[1..])
  }

  /** assertFreshPrincipalKeys in strict mode: None when every group and organisation key named is the current one. */
  function FreshnessError(orgs: map<OrgId, OrgRow>, groups: map<GroupId, GroupRow>, org: OrgId,
                          shares: seq<Share>, orgGeneration: Option<nat>): Option<Error>
  {
    var toOrg := exists sh | sh in shares :: sh.principal.Org?;
    var toGroup := exists sh | sh in shares :: sh.principal.Group?;
    if !toOrg && !toGroup then None
    else if exists sh | sh in shares :: sh.principal.Org? && sh.principal.org != org then Some(BadRequest)
    else if org !in orgs then Some(NotFound)
    else if toOrg && orgGeneration.None? then Some(ClientOutdated)
    else if toOrg && (orgs[org].keyGeneration != orgGeneration.value || orgs[org].rotationRequired) then Some(Conflict)
    else FirstShareError(groups, org, GroupShares(shares))
  }

  // ---------------------------------------------------------------- key rows of a request

  /** The key an honest client wraps to for this share. */
  function NamedKey(sh: Share, orgGeneration: Option<nat>): Key {
    match sh.principal
    case User(u) => UserKey(u)
    case Group(g) => GroupKey(g, if sh.groupPub.Some? then sh.groupPub.value else 0)
    case Org(o) => OrgKey(o, if orgGeneration.Some? then orgGeneration.value else 0)
  }

  function RowFor(n: NodeId, epoch: nat, sh: Share, orgGeneration: Option<nat>): KeyRow {
    KeyRow(Wrap(NamedKey(sh, orgGeneration), Cek(n, epoch)), sh.role, sh.inheritedFrom)
  }

  function RowsOf(n: NodeId, epoch: nat, shares: seq<Share>, orgGeneration: Option<nat>): KeyTable {
    if |shares| == 0 then map[]
    else
      var last := shares[|shares| - 1];
      RowsOf(n, epoch, shares[..|shares| - 1], orgGeneration)[(n, last.principal) := RowFor(n, epoch, last, orgGeneration)]
  }

  lemma {:induction false} RowsOfContents(n: NodeId, epoch: nat, shares: seq<Share>, orgGeneration: Option<nat>)
    ensures forall k :: k in RowsOf(n, epoch, shares, orgGeneration) <==>
                        k.0 == n && exists sh :: sh in shares && sh.principal == k.1
    ensures forall k :: k in RowsOf(n, epoch, shares, orgGeneration) ==>
                        exists sh :: sh in shares && sh.principal == k.1
                                     && RowsOf(n, epoch, shares, orgGeneration)[k] == RowFor(n, epoch, sh, orgGeneration)
  {
    if |shares| > 0 {
      var init, last := shares[..|shares| - 1], shares[|shares| - 1];
      assert forall x :: x in shares <==> x == last || x in init;
      RowsOfContents(n, epoch, init, orgGeneration);
    }
  }

  /** validateRole: the role exists and belongs to the organisation, or to all. */
  predicate RoleOk(roles: RoleTable, org: OrgId, role: RoleId) {
    role in roles && (roles[role].None? || roles[role].value == org)
  }

  predicate RolesOk(roles: RoleTable, org: OrgId, shares: seq<Share>) {
    forall sh | sh in shares :: RoleOk(roles, org, sh.role)
  }

  /** UNIQUE (node, principal) and the foreign key on inherited_from. */
  predicate Insertable(existing: set<NodeId>, shares: seq<Share>) {
    && (forall i, j :: 0 <= i < j < |shares| ==> shares[i].principal != shares[j].principal)
    && (forall sh | sh in shares :: sh.inheritedFrom.Some? ==> sh.inheritedFrom.value in existing)
  }

  // ---------------------------------------------------------------- the steps

  function Flag(nodes: map<NodeId, Node>, flagged: set<NodeId>): map<NodeId, Node> {
    map n | n in nodes :: if n in flagged then nodes[n].(rotationRequired := true) else nodes[n]
  }

  function InitialMembers(g: GroupId, pub: PubKey, initial: seq<(UserId, bool)>): MemberTable {
    if |initial| == 0 then map[]
    else
      var last := initial[|initial| - 1];
      InitialMembers(g, pub, initial[..|initial| - 1])[(g, last.0) := MemberRow(Wrap(UserKey(last.0), GroupKey(g, pub)), last.1)]
  }

  function ApplyCreateGroup(s: State, r: Request): Result<State, Error>
    requires r.CreateGroup?
  {
    if exists m | m in r.initial :: (r.org, m.0) !in s.memberships then Err(BadRequest)
    else
      Ok(s.(
        groups := s.groups[r.group := GroupRow(r.org, r.pub, false)],
        members := s.members + InitialMembers(r.group, r.pub, r.initial),
        usedGroups := s.usedGroups + {r.group}, usedPubs := s.usedPubs + {(r.group, r.pub)}))
  }

  function ApplyAddMember(s: State, r: Request): Result<State, Error>
    requires r.AddMember?
  {
    if r.group !in s.groups || s.groups[r.group].org != r.org then Err(NotFound)
    else if !r.isOwner && !((r.group, r.actor) in s.members && s.members[(r.group, r.actor)].manager) then Err(Forbidden)
    else if (r.org, r.user) !in s.memberships then Err(BadRequest)
    else
      var gate := FreshnessError(s.orgs, s.groups, r.org, [Share(Group(r.group), 0, Some(r.expectedPub), None)], None);
      if gate.Some? then Err(gate.value)
      else
        Ok(s.(members := s.members[(r.group, r.user) :=
          MemberRow(Wrap(UserKey(r.user), GroupKey(r.group, r.expectedPub)), r.manager)]))
  }

  /** The checks of applyGroupKeyRotation, in their order. */
  function RotationError(s: State, r: Request): Option<Error>
    requires r.RotateGroup?
  {
    var b, g := r.body, r.group;
    if g !in s.groups || s.groups[g].org != r.org then Some(NotFound)
    else if s.groups[g].pub != b.expectedPub then Some(Conflict)
    else if b.newPub == b.expectedPub then Some(BadRequest)
    else if !r.isOwner && !((g, r.actor) in s.members && s.members[(g, r.actor)].manager) then Some(Forbidden)
    else if r.remove.Some? && (g, r.remove.value) !in s.members then Some(NotFound)
    else if !ExactCoverage(b.members, Remaining(s, r)) then Some(Conflict)
    else if !ExactCoverage(Listed(b.nodeKeys), SharedWith(s, r.org, g)) then Some(Conflict)
    else if exists k | k in b.nodeKeys :: k.0 !in s.nodes || s.nodes[k.0].epoch != k.1 then Some(Conflict)
    else None
  }

  function Remaining(s: State, r: Request): set<UserId>
    requires r.RotateGroup?
  {
    MembersOf(s.members, r.group) - (if r.remove.Some? then {r.remove.value} else {})
  }

  ghost function ApplyRotateGroup(s: State, r: Request): Result<State, Error>
    requires r.RotateGroup?
  {
    var gate := RotationError(s, r);
    if gate.Some? then Err(gate.value)
    else
      var g, pub := r.group, r.body.newPub;
      var shared := SharedWith(s, r.org, g);
      Ok(s.(
        groups := s.groups[g := s.groups[g].(pub := pub, rotationRequired := false)],
        members := map k | k in s.members && !(k.0 == g && r.remove == Some(k.1)) ::
          if k.0 == g then s.members[k].(wrapped := Wrap(UserKey(k.1), GroupKey(g, pub))) else s.members[k],
        keys := map k | k in s.keys ::
          if k.1 == Group(g) && k.0 in shared then s.keys[k].(wrapped := Wrap(GroupKey(g, pub), Cek(k.0, s.nodes[k.0].epoch)))
          else s.keys[k],
        nodes := Flag(s.nodes, Subtree(ParentsOf(s.nodes), shared)),
        usedPubs := s.usedPubs + {(g, pub)}))
  }

  ghost function ApplyDeleteGroup(s: State, r: Request): Result<State, Error>
    requires r.DeleteGroup?
  {
    if r.group !in s.groups || s.groups[r.group].org != r.org then Err(NotFound)
    else
      var shared := set k | k in s.keys && k.1 == Group(r.group) :: k.0;
      Ok(s.(
        nodes := Flag(s.nodes, Subtree(ParentsOf(s.nodes), shared)),
        keys := map k | k in s.keys && k.1 != Group(r.group) :: s.keys[k],
        groups := s.groups - {r.group},
        members := map k | k in s.members && k.0 != r.group :: s.members[k]))
  }

  function ApplyCreateNode(s: State, r: Request): Result<State, Error>
    requires r.CreateNode?
  {
    if r.parent.Some? && r.parent.value !in s.nodes then Err(NotFound)
    else if r.parent.Some? && s.nodes[r.parent.value].org != r.org then Err(BadRequest)
    else if r.org !in s.orgs then Err(Forbidden)
    else if !exists sh | sh in r.shares :: sh.principal == User(r.actor) then Err(BadRequest)
    else if !RolesOk(s.roles, r.org, r.shares) then Err(BadRequest)
    else
      var gate := FreshnessError(s.orgs, s.groups, r.org, r.shares, r.orgGeneration);
      if gate.Some? then Err(gate.value)
      else if !Insertable(s.nodes.Keys, r.shares) then Err(ConstraintViolation)
      else
        Ok(s.(
          nodes := s.nodes[r.node := Node(r.org, r.parent, r.actor, 1, false, None, false)],
          keys := s.keys + RowsOf(r.node, 1, r.shares, r.orgGeneration),
          usedNodes := s.usedNodes + {r.node}))
  }

  function RotateNodeError(s: State, r: Request): Option<Error>
    requires r.RotateNode?
  {
    if r.node !in s.nodes then Some(NotFound)
    else
      var node := s.nodes[r.node];
      if !exists sh | sh in r.shares :: sh.principal == User(node.owner) then Some(BadRequest)
      else if !RolesOk(s.roles, node.org, r.shares) then Some(BadRequest)
      else
        var gate := FreshnessError(s.orgs, s.groups, node.org, r.shares, r.orgGeneration);
        if gate.Some? then gate
        else if r.expectedEpoch.Some? && r.expectedEpoch.value != node.epoch then Some(Conflict)
        else if (exists k | k in s.keys :: k.0 == r.node && k.1.Org?)
                && !(exists sh | sh in r.shares :: sh.principal == Org(node.org)) then Some(BadRequest)
        else if !Insertable(s.nodes.Keys, r.shares) then Some(ConstraintViolation)
        else None
  }

  function ApplyRotateNode(s: State, r: Request): Result<State, Error>
    requires r.RotateNode?
  {
    var gate := RotateNodeError(s, r);
    if gate.Some? then Err(gate.value)
    else
      var node := s.nodes[r.node];
      Ok(s.(
        nodes := s.nodes[r.node := node.(epoch := node.epoch + 1, rotationRequired := false)],
        keys := (map k | k in s.keys && k.0 != r.node :: s.keys[k]) + RowsOf(r.node, node.epoch + 1, r.shares, r.orgGeneration),
        archive := s.archive + PreviousKeyLink(r.node, node.epoch, r.keepPrevious)))
  }

  /** prev_key_wrapped: the old node key under the new one. */
  function PreviousKeyLink(n: NodeId, epoch: nat, keep: bool): set<Wrap> {
    if keep then {Wrap(Cek(n, epoch + 1), Cek(n, epoch))} else {}
  }

  ghost function MoveError(s: State, r: Request): Option<Error>
    requires r.MoveNode?
  {
    if r.node !in s.nodes then Some(NotFound)
    else if r.parent.Some? && r.parent.value !in s.nodes then Some(NotFound)
    else if r.parent.Some? && s.nodes[r.parent.value].org != s.nodes[r.node].org then Some(BadRequest)
    else if r.parent == Some(r.node) then Some(BadRequest)
    else if r.parent.Some? && r.parent.value in Subtree(ParentsOf(s.nodes), {r.node}) then Some(BadRequest)
    else if s.nodes[r.node].rotationRequired then Some(Conflict)
    else None
  }

  ghost function ApplyMoveNode(s: State, r: Request): Result<State, Error>
    requires r.MoveNode?
  {
    var gate := MoveError(s, r);
    if gate.Some? then Err(gate.value)
    else
      var nodes := s.nodes[r.node := s.nodes[r.node].(parent := r.parent)];
      var moved := Subtree(ParentsOf(nodes), {r.node});
      Ok(s.(
        nodes := nodes,
        keys := map k | k in s.keys && !(k.0 in moved && s.keys[k].inheritedFrom.Some?) :: s.keys[k]))
  }

  function ApplyPutContent(s: State, r: Request): Result<State, Error>
    requires r.PutContent?
  {
    if r.node !in s.nodes then Err(NotFound)
    else
      var node := s.nodes[r.node];
      if AssertContentBase(r.base, node.version, node.epoch, node.rotationRequired).Some? then Err(Conflict)
      else
        Ok(s.(
          nodes := s.nodes[r.node := node.(version := Some(r.newVersion))],
          writes := s.writes + [Write(r.node, node.epoch)]))
  }

  /** The guarded INSERT of the relay: WHERE NOT key_rotation_required AND key_epoch = the peer's. */
  function ApplyRelayUpdate(s: State, r: Request): Result<State, Error>
    requires r.RelayUpdate?
  {
    if r.node !in s.nodes then Err(Conflict)
    else if s.nodes[r.node].rotationRequired || s.nodes[r.node].epoch != r.peerEpoch then Err(Conflict)
    else Ok(s.(writes := s.writes + [Write(r.node, r.peerEpoch)]))
  }

  /** Trashing and restoring mark one node; what lies below it follows only for the readers. */
  function ApplyMark(s: State, n: NodeId, trashed: bool): Result<State, Error> {
    if n !in s.nodes then Err(NotFound) else Ok(s.(nodes := s.nodes[n := s.nodes[n].(trashed := trashed)]))
  }

  /** DELETE FROM nodes: rows cascade down the subtree, inherited_from becomes NULL elsewhere. */
  ghost function ApplyPurge(s: State, r: Request): Result<State, Error>
    requires r.Purge?
  {
    if r.node !in s.nodes then Err(NotFound)
    else if !s.nodes[r.node].trashed then Err(BadRequest)
    else
      var gone := Subtree(ParentsOf(s.nodes), {r.node});
      Ok(s.(nodes := s.nodes - gone, keys := Detach(s.keys, gone)))
  }

  function Detach(keys: KeyTable, gone: set<NodeId>): KeyTable {
    map k | k in keys && k.0 !in gone ::
      if keys[k].inheritedFrom.Some? && keys[k].inheritedFrom.value in gone then keys[k].(inheritedFrom := None) else keys[k]
  }

  ghost function Apply(s: State, r: Request): Result<State, Error> {
    match r
    case CreateGroup(_, _, _, _) => ApplyCreateGroup(s, r)
    case AddMember(_, _, _, _, _, _, _) => ApplyAddMember(s, r)
    case RotateGroup(_, _, _, _, _, _) => ApplyRotateGroup(s, r)
    case DeleteGroup(_, _) => ApplyDeleteGroup(s, r)
    case CreateNode(_, _, _, _, _, _) => ApplyCreateNode(s, r)
    case RotateNode(_, _, _, _, _) => ApplyRotateNode(s, r)
    case MoveNode(_, _) => ApplyMoveNode(s, r)
    case PutContent(_, _, _) => ApplyPutContent(s, r)
    case RelayUpdate(_, _) => ApplyRelayUpdate(s, r)
    case Trash(n) => ApplyMark(s, n, true)
    case Restore(n) => ApplyMark(s, n, false)
    case Purge(_) => ApplyPurge(s, r)
  }

  /** Adds the envelopes now stored in the tables to what an observer has seen. */
  function Observe(s: State): State {
    s.(archive := s.archive + (set k | k in s.keys :: s.keys[k].wrapped) + (set k | k in s.members :: s.members[k].wrapped))
  }

  /** A refused request changes nothing; an accepted one lets an observer see what it stored. */
  ghost function Step(s: State, r: Request): State {
    var res := Apply(s, r);
    if res.Ok? then Observe(res.value) else s
  }

  ghost function Run(s: State, rs: seq<Request>): State
    decreases |rs|
  {
    if |rs| == 0 then s else Run(Step(s, rs[0]), rs[1..])
  }

  /** Identifiers are fresh UUIDs; a rotating client generates a key pair never used before. */
  predicate Honest(s: State, r: Request) {
    match r
    case CreateGroup(_, g, _, _) => g !in s.usedGroups
    case RotateGroup(_, g, _, _, b, _) => (g, b.newPub) !in s.usedPubs
    case CreateNode(_, n, _, _, _, _) => n !in s.usedNodes
    case _ => true
  }

  ghost predicate HonestRun(s: State, rs: seq<Request>)
    decreases |rs|
  {
    |rs| == 0 || (Honest(s, rs[0]) && HonestRun(Step(s, rs[0]), rs[1..]))
  }
}
