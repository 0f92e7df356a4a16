/**
 Who can read what, over whole runs. A rotation gives the new key to exactly the people it names; a
 group rewrap keeps every remaining member's access; and after a member is removed (or the group
 deleted), nothing written later on an affected node can be read by the removed member, whatever
 requests follow, unless one of them puts the member back.
 */
module Revocation {
  import opened Prelude
  import opened Forest
  import opened KeyGraph
  import opened Preconditions
  import opened DriveModel
  import opened DriveInvariant

  // ---------------------------------------------------------------- the envelopes each request adds

  /** An envelope an accepted request may add to the observer's record. */
  ghost predicate Expected(s: State, r: Request, w: Wrap) {
    match r
    case CreateGroup(_, g, pub, _) => w.under.UserKey? && w.secret == GroupKey(g, pub)
    case AddMember(_, g, _, _, v, pub, _) =>
      g in s.groups && s.groups[g].pub == pub && w == Wrap(UserKey(v), GroupKey(g, pub))
    case RotateGroup(_, g, _, _, b, _) =>
      || (w.under.UserKey? && w.secret == GroupKey(g, b.newPub) && w.under.user in Remaining(s, r))
      || (w.under == GroupKey(g, b.newPub) && w.secret.Cek? && (w.secret.node, Group(g)) in s.keys
          && w.secret.node in s.nodes && w.secret.epoch == s.nodes[w.secret.node].epoch)
    case CreateNode(_, n, _, _, _, _) => w.secret == Cek(n, 1)
    case RotateNode(n, _, shares, orgGeneration, keepPrevious) =>
      n in s.nodes
      && (|| (keepPrevious && w == Wrap(Cek(n, s.nodes[n].epoch + 1), Cek(n, s.nodes[n].epoch)))
          || (w.secret == Cek(n, s.nodes[n].epoch + 1)
              && exists sh :: sh in shares && w.under == NamedKey(sh, orgGeneration)
                              && NamesCurrentKey(s, s.nodes[n].org, sh, orgGeneration)))
    case _ => false
  }

  lemma CreateGroupAdds(s: State, r: Request, w: Wrap)
    requires Inv(s) && r.CreateGroup? && ApplyCreateGroup(s, r).Ok?
    requires w in Observe(ApplyCreateGroup(s, r).value).archive && w !in s.archive
    ensures Expected(s, r, w)
  {
    InitialMembersContents(r.group, r.pub, r.initial);
  }

  lemma AddMemberAdds(s: State, r: Request, w: Wrap)
    requires Inv(s) && r.AddMember? && ApplyAddMember(s, r).Ok?
    requires w in Observe(ApplyAddMember(s, r).value).archive && w !in s.archive
    ensures Expected(s, r, w)
  {
    var shares := [Share(Group(r.group), 0, Some(r.expectedPub), None)];
    FreshnessGate(s, r.org, shares, None);
    assert shares[0] in shares;
  }

  lemma RotatedKeyRow(s: State, r: Request, k: (NodeId, Principal))
    requires KeysOk(s) && r.RotateGroup? && ApplyRotateGroup(s, r).Ok? && k in s.keys
    ensures k in ApplyRotateGroup(s, r).value.keys
    ensures var row := ApplyRotateGroup(s, r).value.keys[k];
            row == s.keys[k] || Expected(s, r, row.wrapped)
  {
    assert KeyRowOk(s, k, s.keys[k]);
  }

  lemma RotatedMemberRow(s: State, r: Request, m: (GroupId, UserId))
    requires r.RotateGroup? && ApplyRotateGroup(s, r).Ok? && m in ApplyRotateGroup(s, r).value.members
    ensures m in s.members
    ensures var row := ApplyRotateGroup(s, r).value.members[m];
            row == s.members[m] || Expected(s, r, row.wrapped)
  {
    assert m.1 in MembersOf(s.members, m.0);
  }

  lemma RotateGroupAdds(s: State, r: Request, w: Wrap)
    requires KeysOk(s) && Observed(s) && r.RotateGroup? && ApplyRotateGroup(s, r).Ok?
    requires w in Observe(ApplyRotateGroup(s, r).value).archive && w !in s.archive
    ensures Expected(s, r, w)
  {
    var t := ApplyRotateGroup(s, r).value;
    if k :| k in t.keys && t.keys[k].wrapped == w {
      RotatedKeyRow(s, r, k);
    } else {
      var m :| m in t.members && t.members[m].wrapped == w;
      RotatedMemberRow(s, r, m);
    }
  }

  lemma CreateNodeAdds(s: State, r: Request, w: Wrap)
    requires Inv(s) && r.CreateNode? && ApplyCreateNode(s, r).Ok?
    requires w in Observe(ApplyCreateNode(s, r).value).archive && w !in s.archive
    ensures Expected(s, r, w)
  {
    RowsOfContents(r.node, 1, r.shares, r.orgGeneration);
    var t := ApplyCreateNode(s, r).value;
    var k :| k in t.keys && t.keys[k].wrapped == w;
    assert k in RowsOf(r.node, 1, r.shares, r.orgGeneration);
  }

  lemma RotateNodeAdds(s: State, r: Request, w: Wrap)
    requires Observed(s) && r.RotateNode? && ApplyRotateNode(s, r).Ok?
    requires w in Observe(ApplyRotateNode(s, r).value).archive && w !in s.archive
    ensures Expected(s, r, w)
  {
    var t := ApplyRotateNode(s, r).value;
    if w !in t.archive {
      var k :| k in t.keys && t.keys[k].wrapped == w;
      RotateNodeRow(s, r, k);
    }
  }

  lemma RotateNodeRow(s: State, r: Request, k: (NodeId, Principal))
    requires r.RotateNode? && RotateNodeError(s, r).None?
    requires k in RowsOf(r.node, s.nodes[r.node].epoch + 1, r.shares, r.orgGeneration)
    ensures Expected(s, r, RowsOf(r.node, s.nodes[r.node].epoch + 1, r.shares, r.orgGeneration)[k].wrapped)
  {
    var node := s.nodes[r.node];
    var rows := RowsOf(r.node, node.epoch + 1, r.shares, r.orgGeneration);
    RowsOfContents(r.node, node.epoch + 1, r.shares, r.orgGeneration);
    var sh :| sh in r.shares && sh.principal == k.1 && rows[k] == RowFor(r.node, node.epoch + 1, sh, r.orgGeneration);
    FreshnessGate(s, node.org, r.shares, r.orgGeneration);
  }

  lemma QuietAdds(s: State, r: Request, w: Wrap)
    requires Inv(s) && (r.DeleteGroup? || r.MoveNode? || r.PutContent? || r.RelayUpdate? || r.Trash? || r.Restore? || r.Purge?)
    ensures w in Step(s, r).archive ==> w in s.archive
  {
  }

  lemma StepAdds(s: State, r: Request, w: Wrap)
    requires Inv(s) && w in Step(s, r).archive && w !in s.archive
    ensures Apply(s, r).Ok? && Expected(s, r, w)
  {
    match r
    case CreateGroup(_, _, _, _) => CreateGroupAdds(s, r, w);
    case AddMember(_, _, _, _, _, _, _) => AddMemberAdds(s, r, w);
    case RotateGroup(_, _, _, _, _, _) => RotateGroupAdds(s, r, w);
    case CreateNode(_, _, _, _, _, _) => CreateNodeAdds(s, r, w);
    case RotateNode(_, _, _, _, _) => RotateNodeAdds(s, r, w);
    case _ => QuietAdds(s, r, w);
  }

  // ---------------------------------------------------------------- readers after a rotation

  /** The people a share reaches: the user, the members of the group, the holders of the organisation key. */
  ghost predicate Names(s: State, p: Principal, u: UserId) {
    match p
    case User(v) => v == u
    case Group(g) => (g, u) in s.members
    case Org(o) => o in s.orgs && Wrap(UserKey(u), OrgKey(o, s.orgs[o].keyGeneration)) in s.archive
  }

  /** An ACL row lets everyone it names read the node: the rewraps never lock anyone out. */
  lemma AclReads(s: State, u: UserId, n: NodeId, p: Principal)
    requires Inv(s) && (n, p) in s.keys && Names(s, p, u)
    ensures n in s.nodes && Derives(s.archive, UserKey(u), Cek(n, s.nodes[n].epoch))
  {
    assert KeyRowOk(s, (n, p), s.keys[(n, p)]);
    var e := s.nodes[n].epoch;
    assert s.keys[(n, p)].wrapped == Wrap(CurrentKey(s, p), Cek(n, e));
    if p.Group? {
      assert s.members[(p.group, u)].wrapped in s.archive;
    }
    assert Opens(s.archive, u, n, e);
    assert BackLinked(s.archive, n, e, e);
    DerivesIff(s.archive, u, Cek(n, e));
  }

  /** Before a rotation nobody holds the key it will introduce. */
  lemma NextKeyUnknown(s: State, n: NodeId, e: nat)
    requires Inv(s) && n in s.nodes && e > s.nodes[n].epoch
    ensures forall w :: w in s.archive ==> w.secret != Cek(n, e)
  {
    forall w | w in s.archive
      ensures w.secret != Cek(n, e)
    {
      assert KeyKnown(s, w.secret);
    }
  }

  /** A key named by a share is held exactly by the people the share reaches. */
  lemma HolderIsNamed(s: State, org: OrgId, sh: Share, orgGeneration: Option<nat>, u: UserId)
    requires Inv(s) && NamesCurrentKey(s, org, sh, orgGeneration)
    requires NamedKey(sh, orgGeneration) == UserKey(u) || Wrap(UserKey(u), NamedKey(sh, orgGeneration)) in s.archive
    ensures Names(s, sh.principal, u)
  {
    var k := NamedKey(sh, orgGeneration);
    assert Wrap(UserKey(u), k) in s.archive ==> WellShaped(Wrap(UserKey(u), k));
  }

  lemma ReaderIsNamed(s: State, r: Request, u: UserId)
    requires Inv(s) && r.RotateNode? && Apply(s, r).Ok?
    requires Derives(Step(s, r).archive, UserKey(u), Cek(r.node, s.nodes[r.node].epoch + 1))
    ensures exists sh :: sh in r.shares && Names(s, sh.principal, u)
  {
    var t, e := Step(s, r), s.nodes[r.node].epoch + 1;
    StepKeeps(s, r);
    DerivesIff(t.archive, u, Cek(r.node, e));
    var hi: nat :| hi >= e && Opens(t.archive, u, r.node, hi) && BackLinked(t.archive, r.node, hi, e);
    NextKeyUnknown(s, r.node, hi);
    var k := if Wrap(UserKey(u), Cek(r.node, hi)) in t.archive then UserKey(u)
             else var k: Key :| !k.Cek? && Wrap(UserKey(u), k) in t.archive && Wrap(k, Cek(r.node, hi)) in t.archive; k;
    StepAdds(s, r, Wrap(k, Cek(r.node, hi)));
    var sh :| sh in r.shares && k == NamedKey(sh, r.orgGeneration)
              && NamesCurrentKey(s, s.nodes[r.node].org, sh, r.orgGeneration);
    if k != UserKey(u) && Wrap(UserKey(u), k) !in s.archive {
      StepAdds(s, r, Wrap(UserKey(u), k));
      assert false;
    }
    HolderIsNamed(s, s.nodes[r.node].org, sh, r.orgGeneration, u);
  }

  lemma RotatedRows(s: State, r: Request, sh: Share)
    requires r.RotateNode? && Apply(s, r).Ok? && sh in r.shares
    ensures r.node in s.nodes && r.node in Step(s, r).nodes && Step(s, r).nodes[r.node].epoch == s.nodes[r.node].epoch + 1
    ensures (r.node, sh.principal) in Step(s, r).keys
  {
    RowsOfContents(r.node, s.nodes[r.node].epoch + 1, r.shares, r.orgGeneration);
  }

  lemma RotationKeepsNames(s: State, r: Request, p: Principal, u: UserId)
    requires r.RotateNode? && Names(s, p, u)
    ensures Names(Step(s, r), p, u)
  {
  }

  lemma NamedReads(s: State, r: Request, u: UserId, sh: Share)
    requires Inv(s) && r.RotateNode? && Apply(s, r).Ok? && sh in r.shares && Names(s, sh.principal, u)
    ensures Derives(Step(s, r).archive, UserKey(u), Cek(r.node, s.nodes[r.node].epoch + 1))
  {
    StepKeeps(s, r);
    RotatedRows(s, r, sh);
    RotationKeepsNames(s, r, sh.principal, u);
    AclReads(Step(s, r), u, r.node, sh.principal);
  }

  /** The new key of a rotated node can be read by exactly the people its shares name. */
  lemma RotationReaders(s: State, r: Request, u: UserId)
    requires Inv(s) && r.RotateNode? && Apply(s, r).Ok?
    ensures Derives(Step(s, r).archive, UserKey(u), Cek(r.node, s.nodes[r.node].epoch + 1))
       <==> exists sh :: sh in r.shares && Names(s, sh.principal, u)
  {
    if Derives(Step(s, r).archive, UserKey(u), Cek(r.node, s.nodes[r.node].epoch + 1)) {
      ReaderIsNamed(s, r, u);
    }
    if exists sh :: sh in r.shares && Names(s, sh.principal, u) {
      var sh :| sh in r.shares && Names(s, sh.principal, u);
      NamedReads(s, r, u, sh);
    }
  }

  /** The new key of a rotated group can be read by exactly the remaining members. */
  lemma GroupKeyReaders(s: State, r: Request, u: UserId)
    requires Inv(s) && r.RotateGroup? && Honest(s, r) && Apply(s, r).Ok?
    ensures Derives(Step(s, r).archive, UserKey(u), GroupKey(r.group, r.body.newPub)) <==> u in Remaining(s, r)
  {
    var t, k := Step(s, r), GroupKey(r.group, r.body.newPub);
    StepKeeps(s, r);
    DerivesIff(t.archive, u, k);
    if Wrap(UserKey(u), k) in t.archive {
      assert Wrap(UserKey(u), k) !in s.archive;
      StepAdds(s, r, Wrap(UserKey(u), k));
    }
    if u in Remaining(s, r) {
      assert (r.group, u) in t.members;
      assert t.members[(r.group, u)].wrapped == Wrap(UserKey(u), k);
    }
  }

  // ---------------------------------------------------------------- revocation over runs

  /** The requests the theorem speaks of: a member leaves group g, by removal or with the whole group. */
  predicate Removes(s: State, r: Request, g: GroupId, u: UserId) {
    match r
    case RotateGroup(_, h, _, _, _, remove) => h == g && remove == Some(u)
    case DeleteGroup(_, h) => h == g && (g, u) in s.members
    case _ => false
  }

  /** The nodes shared with g and everything below them. */
  ghost function Exposed(s: State, g: GroupId): set<NodeId> {
    Subtree(ParentsOf(s.nodes), set k | k in s.keys && k.1 == Group(g) :: k.0)
  }

  /** The groups an accepted rotation of n gives the new key to. */
  ghost function NamedBy(s: State, r: Request, n: NodeId): set<GroupId> {
    if r.RotateNode? && r.node == n && Apply(s, r).Ok? then
      set sh | sh in r.shares && sh.principal.Group? :: sh.principal.group
    else {}
  }

  /**
   An accepted request puts u back on n: a rotation of n names u, a group u belongs to or an
   organisation key u holds, or u joins a group (`named`) that a rotation of n has named since.
   */
  ghost predicate PutsBack(s: State, r: Request, u: UserId, n: NodeId, named: set<GroupId>) {
    Apply(s, r).Ok?
    && match r
       case RotateNode(m, _, shares, _, _) => m == n && exists sh :: sh in shares && Names(s, sh.principal, u)
       case AddMember(_, g, _, _, v, _, _) => v == u && g in named
       case _ => false
  }

  ghost predicate NeverPutBack(s: State, rs: seq<Request>, u: UserId, n: NodeId, named: set<GroupId>)
    decreases |rs|
  {
    |rs| == 0
    || (!PutsBack(s, rs[0], u, n, named)
        && NeverPutBack(Step(s, rs[0]), rs[1..], u, n, named + NamedBy(s, rs[0], n)))
  }

  /** u is kept out of n since epoch e0; `named` are the groups given a later key. */
  ghost predicate KeptOut(s: State, u: UserId, n: NodeId, e0: nat, named: set<GroupId>) {
    && n in s.usedNodes
    && (n in s.nodes ==> s.nodes[n].epoch >= e0 && (s.nodes[n].epoch == e0 ==> s.nodes[n].rotationRequired))
    && (forall e: nat :: e > e0 ==> !Opens(s.archive, u, n, e))
    && (forall w :: w in s.archive && w.under.GroupKey? && w.secret.Cek? && w.secret.node == n && w.secret.epoch > e0
                    ==> w.under.group in named)
  }

  /** The envelope that would newly open a later epoch to u betrays a request that puts u back. */
  lemma NewOpeningPutsBack(s: State, r: Request, u: UserId, n: NodeId, e0: nat, named: set<GroupId>, k: Key, e: nat)
    requires Inv(s) && Honest(s, r) && KeptOut(s, u, n, e0, named) && e > e0
    requires k == UserKey(u) || (!k.Cek? && Wrap(UserKey(u), k) in Step(s, r).archive)
    requires Wrap(k, Cek(n, e)) in Step(s, r).archive
    ensures PutsBack(s, r, u, n, named)
  {
    var give, hold := Wrap(k, Cek(n, e)), Wrap(UserKey(u), k);
    if give !in s.archive {
      StepAdds(s, r, give);
      if r.RotateNode? {
        var sh :| sh in r.shares && k == NamedKey(sh, r.orgGeneration)
                  && NamesCurrentKey(s, s.nodes[n].org, sh, r.orgGeneration);
        if k != UserKey(u) && hold !in s.archive {
          StepAdds(s, r, hold);
          assert false;
        }
        HolderIsNamed(s, s.nodes[n].org, sh, r.orgGeneration, u);
      } else {
        // a group rewrap: u is a remaining member, so u could already open the old envelope
        assert r.RotateGroup?;
        assert hold !in s.archive;
        assert s.keys[(n, Group(r.group))].wrapped == Wrap(GroupKey(r.group, s.groups[r.group].pub), Cek(n, e)) by {
          assert KeyRowOk(s, (n, Group(r.group)), s.keys[(n, Group(r.group))]);
        }
        assert (r.group, u) !in s.members by {
          assert !Opens(s.archive, u, n, e);
        }
        StepAdds(s, r, hold);
      }
    } else {
      assert !Opens(s.archive, u, n, e);
      StepAdds(s, r, hold);
    }
  }

  lemma GroupsGivenLaterKeys(s: State, r: Request, u: UserId, n: NodeId, e0: nat, named: set<GroupId>, w: Wrap)
    requires Inv(s) && Honest(s, r) && KeptOut(s, u, n, e0, named)
    requires w in Step(s, r).archive && w.under.GroupKey? && w.secret.Cek? && w.secret.node == n && w.secret.epoch > e0
    ensures w.under.group in named + NamedBy(s, r, n)
  {
    if w !in s.archive {
      StepAdds(s, r, w);
      if r.RotateGroup? {
        assert KeyRowOk(s, (n, Group(r.group)), s.keys[(n, Group(r.group))]);
        assert s.keys[(n, Group(r.group))].wrapped in s.archive;
      } else {
        assert r.RotateNode?;
        var sh :| sh in r.shares && w.under == NamedKey(sh, r.orgGeneration);
        assert sh.principal.Group?;
      }
    }
  }

  /** An accepted rotation of n. */
  ghost predicate Rotates(s: State, r: Request, n: NodeId) {
    r.RotateNode? && r.node == n && Apply(s, r).Ok?
  }

  /** An existing node keeps its epoch and its flag until it is rotated. */
  ghost predicate KeepsUntilRotated(s: State, r: Request, t: State, n: NodeId) {
    n in t.usedNodes
    && (n in t.nodes ==>
          && n in s.nodes
          && (Rotates(s, r, n) ==> t.nodes[n].epoch == s.nodes[n].epoch + 1)
          && (!Rotates(s, r, n) ==> t.nodes[n].epoch == s.nodes[n].epoch
                                    && (s.nodes[n].rotationRequired ==> t.nodes[n].rotationRequired)))
  }

  lemma GroupsKeepNode(s: State, r: Request, n: NodeId)
    requires (r.RotateGroup? || r.DeleteGroup? || r.CreateGroup? || r.AddMember?) && n in s.usedNodes
    ensures KeepsUntilRotated(s, r, Step(s, r), n)
  {
  }

  lemma EditsKeepNode(s: State, r: Request, n: NodeId)
    requires (r.MoveNode? || r.PutContent? || r.RelayUpdate? || r.Trash? || r.Restore?) && n in s.usedNodes
    ensures KeepsUntilRotated(s, r, Step(s, r), n)
  {
  }

  lemma PurgeKeepsNode(s: State, r: Request, n: NodeId)
    requires r.Purge? && n in s.usedNodes
    ensures KeepsUntilRotated(s, r, Step(s, r), n)
  {
  }

  lemma NodeAfter(s: State, r: Request, n: NodeId)
    requires Honest(s, r) && n in s.usedNodes
    ensures KeepsUntilRotated(s, r, Step(s, r), n)
  {
    match r
    case CreateGroup(_, _, _, _) => GroupsKeepNode(s, r, n);
    case AddMember(_, _, _, _, _, _, _) => GroupsKeepNode(s, r, n);
    case RotateGroup(_, _, _, _, _, _) => GroupsKeepNode(s, r, n);
    case DeleteGroup(_, _) => GroupsKeepNode(s, r, n);
    case CreateNode(_, _, _, _, _, _) =>
    case RotateNode(_, _, _, _, _) =>
    case Purge(_) => PurgeKeepsNode(s, r, n);
    case _ => EditsKeepNode(s, r, n);
  }

  /** A write is recorded only under the current epoch of a node that need not be rotated. */
  lemma WritesAfter(s: State, r: Request)
    ensures || Step(s, r).writes == s.writes
            || (exists n :: n in s.nodes && !s.nodes[n].rotationRequired
                            && Step(s, r).writes == s.writes + [Write(n, s.nodes[n].epoch)])
  {
    match r
    case PutContent(_, _, _) =>
    case RelayUpdate(_, _) =>
    case _ =>
  }

  /** While the node is at e0 it is blocked, so whatever is written on it later is past e0. */
  lemma BlockedUntilRotated(s: State, r: Request, n: NodeId, e0: nat)
    requires Honest(s, r) && n in s.usedNodes
    requires n in s.nodes ==> s.nodes[n].epoch >= e0 && (s.nodes[n].epoch == e0 ==> s.nodes[n].rotationRequired)
    ensures s.writes <= Step(s, r).writes
    ensures forall i :: |s.writes| <= i < |Step(s, r).writes| && Step(s, r).writes[i].node == n ==>
              Step(s, r).writes[i].epoch > e0
  {
    WritesAfter(s, r);
  }

  lemma StepKeepsOut(s: State, r: Request, u: UserId, n: NodeId, e0: nat, named: set<GroupId>)
    requires Inv(s) && Honest(s, r) && KeptOut(s, u, n, e0, named) && !PutsBack(s, r, u, n, named)
    ensures KeptOut(Step(s, r), u, n, e0, named + NamedBy(s, r, n))
  {
    var t := Step(s, r);
    NodeAfter(s, r, n);
    forall e: nat | e > e0
      ensures !Opens(t.archive, u, n, e)
    {
      if Opens(t.archive, u, n, e) {
        var k := if Wrap(UserKey(u), Cek(n, e)) in t.archive then UserKey(u)
                 else var k: Key :| !k.Cek? && Wrap(UserKey(u), k) in t.archive && Wrap(k, Cek(n, e)) in t.archive; k;
        NewOpeningPutsBack(s, r, u, n, e0, named, k, e);
      }
    }
    forall w | w in t.archive && w.under.GroupKey? && w.secret.Cek? && w.secret.node == n && w.secret.epoch > e0
      ensures w.under.group in named + NamedBy(s, r, n)
    {
      GroupsGivenLaterKeys(s, r, u, n, e0, named, w);
    }
  }

  lemma {:induction false} RunKeepsOut(s: State, rs: seq<Request>, u: UserId, n: NodeId, e0: nat, named: set<GroupId>)
    returns (named': set<GroupId>)
    requires Inv(s) && HonestRun(s, rs) && KeptOut(s, u, n, e0, named) && NeverPutBack(s, rs, u, n, named)
    ensures Inv(Run(s, rs)) && KeptOut(Run(s, rs), u, n, e0, named')
    ensures s.writes <= Run(s, rs).writes
    ensures forall i :: |s.writes| <= i < |Run(s, rs).writes| && Run(s, rs).writes[i].node == n ==>
              Run(s, rs).writes[i].epoch > e0
    decreases |rs|
  {
    named' := named;
    if |rs| > 0 {
      var t := Step(s, rs[0]);
      StepKeeps(s, rs[0]);
      BlockedUntilRotated(s, rs[0], n, e0);
      StepKeepsOut(s, rs[0], u, n, e0, named);
      named' := RunKeepsOut(t, rs[1..], u, n, e0, named + NamedBy(s, rs[0], n));
      var end := Run(s, rs);
      forall i | |s.writes| <= i < |end.writes| && end.writes[i].node == n
        ensures end.writes[i].epoch > e0
      {
        if i < |t.writes| {
          assert end.writes[i] == t.writes[i];
        }
      }
    }
  }

  lemma RotateGroupFlags(s: State, r: Request, n: NodeId)
    requires KeysOk(s) && r.RotateGroup? && ApplyRotateGroup(s, r).Ok? && n in Exposed(s, r.group)
    ensures n in s.nodes && n in ApplyRotateGroup(s, r).value.nodes
    ensures ApplyRotateGroup(s, r).value.nodes[n] == s.nodes[n].(rotationRequired := true)
  {
    assert SharedWith(s, r.org, r.group) == set k | k in s.keys && k.1 == Group(r.group) :: k.0 by {
      forall k | k in s.keys && k.1 == Group(r.group)
        ensures k.0 in SharedWith(s, r.org, r.group)
      {
        assert KeyRowOk(s, k, s.keys[k]);
      }
    }
  }

  /** Removal blocks every exposed node at its epoch. */
  lemma RemovalFlags(s: State, r: Request, g: GroupId, u: UserId, n: NodeId)
    requires KeysOk(s) && Removes(s, r, g, u) && Apply(s, r).Ok? && n in Exposed(s, g)
    ensures n in s.nodes && n in Step(s, r).nodes && Step(s, r).writes == s.writes
    ensures Step(s, r).nodes[n].epoch == s.nodes[n].epoch && Step(s, r).nodes[n].rotationRequired
  {
    if r.RotateGroup? {
      RotateGroupFlags(s, r, n);
    }
  }

  lemma RemovalKeepsOut(s: State, r: Request, g: GroupId, u: UserId, n: NodeId)
    requires Inv(s) && Honest(s, r) && Removes(s, r, g, u) && Apply(s, r).Ok? && n in Exposed(s, g)
    ensures n in s.nodes && Step(s, r).writes == s.writes
    ensures Inv(Step(s, r)) && KeptOut(Step(s, r), u, n, s.nodes[n].epoch, {})
  {
    RemovalFlags(s, r, g, u, n);
    StepKeeps(s, r);
    BlockedNodeKeepsOut(Step(s, r), u, n);
  }

  lemma BlockedNodeKeepsOut(t: State, u: UserId, n: NodeId)
    requires Inv(t) && n in t.nodes && t.nodes[n].rotationRequired
    ensures KeptOut(t, u, n, t.nodes[n].epoch, {})
  {
    forall e: nat | e > t.nodes[n].epoch
      ensures forall w :: w in t.archive ==> w.secret != Cek(n, e)
    {
      NextKeyUnknown(t, n, e);
    }
  }

  lemma KeptOutCannotRead(t: State, u: UserId, n: NodeId, e0: nat, named: set<GroupId>, e: nat)
    requires Inv(t) && KeptOut(t, u, n, e0, named) && e > e0
    ensures !Derives(t.archive, UserKey(u), Cek(n, e))
  {
    DerivesIff(t.archive, u, Cek(n, e));
  }

  /** The writes past `mark` in a state are under later epochs of n, and sealed to u. */
  ghost predicate SealedSince(t: State, mark: nat, u: UserId, n: NodeId, e0: nat) {
    forall i :: mark <= i < |t.writes| && t.writes[i].node == n ==>
      t.writes[i].epoch > e0 && !Derives(t.archive, UserKey(u), Cek(n, t.writes[i].epoch))
  }

  lemma KeptOutRun(t: State, rs: seq<Request>, u: UserId, n: NodeId, e0: nat)
    requires Inv(t) && KeptOut(t, u, n, e0, {}) && HonestRun(t, rs) && NeverPutBack(t, rs, u, n, {})
    ensures t.writes <= Run(t, rs).writes && SealedSince(Run(t, rs), |t.writes|, u, n, e0)
  {
    var named := RunKeepsOut(t, rs, u, n, e0, {});
    var end := Run(t, rs);
    forall i | |t.writes| <= i < |end.writes| && end.writes[i].node == n
      ensures end.writes[i].epoch > e0 && !Derives(end.archive, UserKey(u), Cek(n, end.writes[i].epoch))
    {
      KeptOutCannotRead(end, u, n, e0, named, end.writes[i].epoch);
    }
  }

  /**
   REVOCATION. u leaves group g; n was shared with g or lies below such a node. In every later state
   of every run that never puts u back on n, each content version or relayed update written on n
   since is under a strictly later key epoch, and u cannot derive that epoch's key from all the
   envelopes ever stored.
   */
  lemma RemovedMemberReadsNothingLater(s: State, r: Request, rs: seq<Request>, g: GroupId, u: UserId, n: NodeId)
    requires Inv(s) && Honest(s, r) && Removes(s, r, g, u) && Apply(s, r).Ok? && n in Exposed(s, g)
    requires HonestRun(Step(s, r), rs) && NeverPutBack(Step(s, r), rs, u, n, {})
    ensures n in s.nodes
    ensures s.writes <= Run(Step(s, r), rs).writes
    ensures SealedSince(Run(Step(s, r), rs), |s.writes|, u, n, s.nodes[n].epoch)
  {
    RemovalKeepsOut(s, r, g, u, n);
    KeptOutRun(Step(s, r), rs, u, n, s.nodes[n].epoch);
  }
}
