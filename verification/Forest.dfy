/**
 The parent graph of the Drive: `nodes.parent_id` seen as a partial function. The server walks it
 with recursive queries that deduplicate (`UNION`), upwards to collect the ACL of a node and
 downwards to collect a subtree. The walks are modelled as the evaluation loop of such a query; they
 terminate on ANY parent graph and compute reachability. Create, move and cascade deletion
 are shown to keep the graph a forest.
 */
module Forest {
  import opened Prelude

  type NodeId = nat
  type Parents = map<NodeId, Option<NodeId>>

  // ---------------------------------------------------------------- reachability

  /** The k-th ancestor of n (n itself for k = 0), if the chain of existing nodes is that long. */
  ghost function Up(p: Parents, n: NodeId, k: nat): Option<NodeId>
    decreases k
  {
    if n !in p then None
    else if k == 0 then Some(n)
    else if p[n].None? then None
    else Up(p, p[n].value, k - 1)
  }

  ghost predicate AtOrBelow(p: Parents, n: NodeId, top: NodeId) {
    exists k: nat :: Up(p, n, k) == Some(top)
  }

  ghost predicate BelowSome(p: Parents, n: NodeId, tops: set<NodeId>) {
    exists k: nat :: Up(p, n, k).Some? && Up(p, n, k).value in tops
  }

  ghost function Subtree(p: Parents, tops: set<NodeId>): set<NodeId> {
    set n | n in p && BelowSome(p, n, tops)
  }

  ghost function Ancestors(p: Parents, n: NodeId): set<NodeId> {
    set a | a in p && AtOrBelow(p, n, a)
  }

  lemma {:induction false} UpAdd(p: Parents, n: NodeId, j: nat, k: nat)
    requires Up(p, n, j).Some?
    ensures Up(p, n, j + k) == Up(p, Up(p, n, j).value, k)
    decreases j
  {
    if j > 0 {
      UpAdd(p, p[n].value, j - 1, k);
    }
  }

  lemma {:induction false} UpInDomain(p: Parents, n: NodeId, k: nat)
    ensures Up(p, n, k).Some? ==> Up(p, n, k).value in p
    decreases k
  {
    if n in p && k > 0 && p[n].Some? {
      UpInDomain(p, p[n].value, k - 1);
    }
  }

  lemma {:induction false} UpStaysNone(p: Parents, n: NodeId, j: nat, k: nat)
    requires Up(p, n, j).None? && j <= k
    ensures Up(p, n, k).None?
    decreases j
  {
    if n in p && j > 0 && p[n].Some? {
      UpStaysNone(p, p[n].value, j - 1, k - 1);
    }
  }

  lemma AtOrBelowTransitive(p: Parents, a: NodeId, b: NodeId, c: NodeId)
    requires AtOrBelow(p, a, b) && AtOrBelow(p, b, c)
    ensures AtOrBelow(p, a, c)
  {
    var j: nat :| Up(p, a, j) == Some(b);
    var k: nat :| Up(p, b, k) == Some(c);
    UpAdd(p, a, j, k);
  }

  lemma SubtreeOfSubtree(p: Parents, n: NodeId, m: NodeId, tops: set<NodeId>)
    requires AtOrBelow(p, n, m) && m in Subtree(p, tops)
    ensures n in Subtree(p, tops)
  {
    var j: nat :| Up(p, n, j) == Some(m);
    var k: nat :| Up(p, m, k).Some? && Up(p, m, k).value in tops;
    UpAdd(p, n, j, k);
    assert Up(p, n, j + k).Some? && Up(p, n, j + k).value in tops;
  }

  lemma TopsInSubtree(p: Parents, tops: set<NodeId>)
    ensures forall n :: n in tops && n in p ==> n in Subtree(p, tops)
  {
    forall n | n in tops && n in p
      ensures n in Subtree(p, tops)
    {
      assert Up(p, n, 0) == Some(n);
    }
  }

  /** A child of a subtree member is a subtree member. */
  lemma ChildInSubtree(p: Parents, n: NodeId, tops: set<NodeId>)
    requires n in p && p[n].Some? && p[n].value in Subtree(p, tops)
    ensures n in Subtree(p, tops)
  {
    assert Up(p, n, 1) == Up(p, p[n].value, 0) == Some(p[n].value);
    SubtreeOfSubtree(p, n, p[n].value, tops);
  }

  // ---------------------------------------------------------------- the recursive queries

  /** A set that holds the tops and every child of its members holds the whole subtree. */
  lemma {:induction false} ClosedHoldsSubtree(p: Parents, tops: set<NodeId>, r: set<NodeId>, n: NodeId, k: nat)
    requires forall t :: t in tops && t in p ==> t in r
    requires forall c :: c in p && p[c].Some? && p[c].value in r ==> c in r
    requires Up(p, n, k).Some? && Up(p, n, k).value in tops
    ensures n in r
    decreases k
  {
    if k > 0 {
      ClosedHoldsSubtree(p, tops, r, p[n].value, k - 1);
    }
  }

  /**
   WITH RECURSIVE sub AS (SELECT tops UNION SELECT children of sub): each round adds the children of
   the rows the previous round found, minus the rows already found.
   */
  method DescendantClosure(p: Parents, tops: set<NodeId>) returns (r: set<NodeId>)
    ensures r == Subtree(p, tops)
  {
    r := set n | n in tops && n in p;
    var frontier := r;
    TopsInSubtree(p, tops);
    while frontier != {}
      invariant frontier <= r <= p.Keys
      invariant r <= Subtree(p, tops)
      invariant forall t :: t in tops && t in p ==> t in r
      invariant forall c :: c in p && p[c].Some? && p[c].value in r - frontier ==> c in r
      decreases p.Keys - r, |frontier|
    {
      var next := set n | n in p && n !in r && p[n].Some? && p[n].value in frontier;
      forall n | n in next
        ensures n in Subtree(p, tops)
      {
        ChildInSubtree(p, n, tops);
      }
      if next == {} {
        assert p.Keys - (r + next) == p.Keys - r;
      } else {
        var extra :| extra in next;
        assert extra in p.Keys - r && extra !in p.Keys - (r + next);
      }
      r, frontier := r + next, next;
    }
    forall n | n in Subtree(p, tops)
      ensures n in r
    {
      var k: nat :| Up(p, n, k).Some? && Up(p, n, k).value in tops;
      ClosedHoldsSubtree(p, tops, r, n, k);
    }
  }

  /** A set that holds n and the parent of each of its members holds every ancestor of n. */
  lemma {:induction false} ClosedHoldsAncestors(p: Parents, r: set<NodeId>, n: NodeId, k: nat)
    requires n in p ==> n in r
    requires forall c :: c in r && c in p && p[c].Some? && p[c].value in p ==> p[c].value in r
    requires Up(p, n, k).Some?
    ensures Up(p, n, k).value in r
    decreases k
  {
    if k > 0 {
      UpInDomain(p, n, k);
      UpInDomain(p, p[n].value, 0);
      assert p[n].value in p;
      ClosedHoldsAncestors(p, r, p[n].value, k - 1);
    }
  }

  /** WITH RECURSIVE anc AS (SELECT n UNION SELECT parents of anc). */
  method AncestorClosure(p: Parents, n: NodeId) returns (r: set<NodeId>)
    ensures r == Ancestors(p, n)
  {
    r := if n in p then {n} else {};
    var frontier := r;
    assert n in p ==> Up(p, n, 0) == Some(n);
    while frontier != {}
      invariant frontier <= r <= p.Keys
      invariant r <= Ancestors(p, n)
      invariant n in p ==> n in r
      invariant forall c :: c in r - frontier && p[c].Some? && p[c].value in p ==> p[c].value in r
      decreases p.Keys - r, |frontier|
    {
      var next := set a, c | c in frontier && p[c].Some? && p[c].value == a && a in p && a !in r :: a;
      forall a | a in next
        ensures a in Ancestors(p, n)
      {
        var c :| c in frontier && p[c].Some? && p[c].value == a;
        assert Up(p, c, 1) == Up(p, a, 0) == Some(a);
        AtOrBelowTransitive(p, n, c, a);
      }
      forall c | c in frontier && p[c].Some? && p[c].value in p
        ensures p[c].value in r + next
      {
        var a := p[c].value;
        assert a in r || a in next;
      }
      if next == {} {
        assert p.Keys - (r + next) == p.Keys - r;
      } else {
        var extra :| extra in next;
        assert extra in p.Keys - r && extra !in p.Keys - (r + next);
      }
      r, frontier := r + next, next;
    }
    forall a | a in Ancestors(p, n)
      ensures a in r
    {
      var k: nat :| Up(p, n, k) == Some(a);
      ClosedHoldsAncestors(p, r, n, k);
    }
  }

  // ---------------------------------------------------------------- forests

  ghost predicate Rooted(p: Parents, n: NodeId) {
    exists k: nat :: Up(p, n, k).None?
  }

  /** Every parent exists and every chain of parents ends: no cycle. */
  ghost predicate IsForest(p: Parents) {
    && (forall n :: n in p && p[n].Some? ==> p[n].value in p)
    && (forall n :: n in p ==> Rooted(p, n))
  }

  /** A chain is unchanged by re-parenting n as long as it has not reached n. */
  lemma {:induction false} UpUnchanged(p: Parents, n: NodeId, q: Option<NodeId>, m: NodeId, k: nat)
    requires n in p
    requires forall i: nat :: i < k ==> Up(p, m, i) != Some(n)
    ensures Up(p[n := q], m, k) == Up(p, m, k)
    decreases k
  {
    if m in p && k > 0 {
      assert Up(p, m, 0) == Some(m);
      if p[m].Some? {
        forall i: nat | i < k - 1
          ensures Up(p, p[m].value, i) != Some(n)
        {
          assert Up(p, m, i + 1) == Up(p, p[m].value, i);
        }
        UpUnchanged(p, n, q, p[m].value, k - 1);
      }
    }
  }

  /** The first step at which a chain that meets n meets it. */
  lemma {:induction false} FirstMeeting(p: Parents, m: NodeId, n: NodeId, k: nat) returns (j: nat)
    requires Up(p, m, k) == Some(n)
    ensures j <= k && Up(p, m, j) == Some(n)
    ensures forall i: nat :: i < j ==> Up(p, m, i) != Some(n)
  {
    if exists i: nat :: i < k && Up(p, m, i) == Some(n) {
      var i: nat :| i < k && Up(p, m, i) == Some(n);
      j := FirstMeeting(p, m, n, i);
    } else {
      j := k;
    }
  }

  lemma RootedAfterMove(p: Parents, n: NodeId, q: Option<NodeId>, m: NodeId)
    requires IsForest(p) && n in p && m in p
    requires q.Some? ==> q.value in p && !AtOrBelow(p, q.value, n)
    ensures Rooted(p[n := q], m)
  {
    var p' := p[n := q];
    // the re-parented node itself: its new chain follows the chain of q, which never meets n
    assert Rooted(p', n) by {
      if q.None? {
        assert Up(p', n, 1).None?;
      } else {
        var k: nat :| Up(p, q.value, k).None?;
        UpUnchanged(p, n, q, q.value, k);
        assert Up(p', n, k + 1) == Up(p', q.value, k);
      }
    }
    if AtOrBelow(p, m, n) {
      var i: nat :| Up(p, m, i) == Some(n);
      var j := FirstMeeting(p, m, n, i);
      UpUnchanged(p, n, q, m, j);
      var k: nat :| Up(p', n, k).None?;
      UpAdd(p', m, j, k);
      assert Up(p', m, j + k).None?;
    } else {
      var k: nat :| Up(p, m, k).None?;
      UpUnchanged(p, n, q, m, k);
    }
  }

  /** Going round a cycle any number of times. */
  lemma {:induction false} CycleNeverEnds(p: Parents, n: NodeId, len: nat, k: nat)
    requires len > 0 && Up(p, n, len) == Some(n)
    ensures Up(p, n, k).Some?
    decreases k
  {
    if k < len {
      if Up(p, n, k).None? {
        UpStaysNone(p, n, k, len);
      }
    } else {
      UpAdd(p, n, len, k - len);
      CycleNeverEnds(p, n, len, k - len);
    }
  }

  /** The loop check of PATCH /:id accepts exactly the moves that keep the forest. */
  lemma MoveKeepsForestIff(p: Parents, n: NodeId, q: Option<NodeId>)
    requires IsForest(p) && n in p
    requires q.Some? ==> q.value in p
    ensures IsForest(p[n := q]) <==> (q.Some? ==> q.value !in Subtree(p, {n}))
  {
    var p' := p[n := q];
    if q.Some? && q.value in Subtree(p, {n}) {
      var i: nat :| Up(p, q.value, i).Some? && Up(p, q.value, i).value in {n};
      var j := FirstMeeting(p, q.value, n, i);
      UpUnchanged(p, n, q, q.value, j);
      assert Up(p', n, j + 1) == Up(p', q.value, j) == Some(n);
      forall k: nat
        ensures Up(p', n, k).Some?
      {
        CycleNeverEnds(p', n, j + 1, k);
      }
      assert !Rooted(p', n);
    } else {
      forall m | m in p'
        ensures Rooted(p', m)
      {
        RootedAfterMove(p, n, q, m);
      }
    }
  }

  /** The chain of a node that does not meet the moved one is as before. */
  lemma PathOutsideMove(p: Parents, n: NodeId, q: Option<NodeId>, m: NodeId, x: NodeId)
    requires n in p && !AtOrBelow(p, m, n)
    ensures AtOrBelow(p[n := q], m, x) <==> AtOrBelow(p, m, x)
  {
    if AtOrBelow(p[n := q], m, x) {
      var k: nat :| Up(p[n := q], m, k) == Some(x);
      UpUnchanged(p, n, q, m, k);
    }
    if AtOrBelow(p, m, x) {
      var k: nat :| Up(p, m, k) == Some(x);
      UpUnchanged(p, n, q, m, k);
    }
  }

  /** The chain of a node below the moved one follows the old chain up to n, then that of the new parent. */
  lemma ChainAfterMove(p: Parents, n: NodeId, q: Option<NodeId>, m: NodeId, j: nat, k: nat)
    requires n in p && (q.Some? ==> q.value in p && !AtOrBelow(p, q.value, n))
    requires Up(p, m, j) == Some(n) && forall i: nat :: i < j ==> Up(p, m, i) != Some(n)
    ensures Up(p[n := q], m, k) == if k <= j then Up(p, m, k) else if q.None? then None else Up(p, q.value, k - j - 1)
  {
    var p' := p[n := q];
    UpUnchanged(p, n, q, m, j);
    if k <= j {
      UpUnchanged(p, n, q, m, k);
    } else {
      UpAdd(p', m, j, k - j);
      if q.Some? {
        UpUnchanged(p, n, q, q.value, k - j - 1);
      }
    }
  }

  /** In a forest nothing strictly above n is at or below n. */
  lemma NoneAboveIsBelow(p: Parents, n: NodeId, x: NodeId, up: nat, down: nat)
    requires IsForest(p) && n in p && Up(p, n, up) == Some(x) && Up(p, x, down) == Some(n)
    ensures up + down == 0
  {
    UpAdd(p, n, up, down);
    if up + down > 0 {
      var k: nat :| Up(p, n, k).None?;
      CycleNeverEnds(p, n, up + down, k);
    }
  }

  /** What is above a node of the moved subtree afterwards: what was above it within the subtree, and
      the new parent with all above it. */
  lemma PathInsideMove(p: Parents, n: NodeId, q: Option<NodeId>, m: NodeId, x: NodeId)
    requires IsForest(p) && n in p && (q.Some? ==> q.value in p && !AtOrBelow(p, q.value, n)) && AtOrBelow(p, m, n)
    ensures AtOrBelow(p[n := q], m, x) <==>
              (AtOrBelow(p, m, x) && AtOrBelow(p, x, n)) || (q.Some? && AtOrBelow(p, q.value, x))
  {
    var p' := p[n := q];
    var i: nat :| Up(p, m, i) == Some(n);
    var j := FirstMeeting(p, m, n, i);
    if AtOrBelow(p', m, x) {
      var k: nat :| Up(p', m, k) == Some(x);
      ChainAfterMove(p, n, q, m, j, k);
      if k <= j {
        UpAdd(p, m, k, j - k);
        assert Up(p, x, j - k) == Some(n);
      }
    }
    if AtOrBelow(p, m, x) && AtOrBelow(p, x, n) {
      var k: nat :| Up(p, m, k) == Some(x);
      var down: nat :| Up(p, x, down) == Some(n);
      if k > j {
        UpAdd(p, m, j, k - j);
        NoneAboveIsBelow(p, n, x, k - j, down);
      }
      ChainAfterMove(p, n, q, m, j, k);
    }
    if q.Some? && AtOrBelow(p, q.value, x) {
      var k: nat :| Up(p, q.value, k) == Some(x);
      ChainAfterMove(p, n, q, m, j, j + 1 + k);
      assert Up(p', m, j + 1 + k) == Some(x);
    }
  }

  lemma BelowOne(p: Parents, m: NodeId, n: NodeId)
    ensures m in Subtree(p, {n}) <==> AtOrBelow(p, m, n)
  {
    if AtOrBelow(p, m, n) {
      var k: nat :| Up(p, m, k) == Some(n);
      assert Up(p, m, k).Some? && Up(p, m, k).value in {n};
    }
  }

  /** A move takes along exactly what was below. */
  lemma MoveKeepsSubtree(p: Parents, n: NodeId, q: Option<NodeId>)
    requires IsForest(p) && n in p && (q.Some? ==> q.value in p && !AtOrBelow(p, q.value, n))
    ensures Subtree(p[n := q], {n}) == Subtree(p, {n})
  {
    assert Up(p, n, 0) == Some(n);
    forall m
      ensures m in Subtree(p[n := q], {n}) <==> m in Subtree(p, {n})
    {
      BelowOne(p, m, n);
      BelowOne(p[n := q], m, n);
      if AtOrBelow(p, m, n) {
        PathInsideMove(p, n, q, m, n);
      } else {
        PathOutsideMove(p, n, q, m, n);
      }
    }
  }

  /** A new leaf under an existing parent (or at the root) keeps the forest. */
  lemma CreateKeepsForest(p: Parents, n: NodeId, q: Option<NodeId>)
    requires IsForest(p) && n !in p
    requires q.Some? ==> q.value in p
    ensures IsForest(p[n := q])
  {
    var p' := p[n := q];
    forall m | m in p'
      ensures Rooted(p', m)
    {
      var start := if m != n then m else if q.Some? then q.value else n;
      if m == n && q.None? {
        assert Up(p', n, 1).None?;
      } else {
        var k: nat :| Up(p, start, k).None?;
        LeafUnseen(p, n, q, start, k);
        if m == n {
          assert Up(p', n, k + 1) == Up(p', start, k);
        }
      }
    }
  }

  lemma {:induction false} LeafUnseen(p: Parents, n: NodeId, q: Option<NodeId>, m: NodeId, k: nat)
    requires IsForest(p) && n !in p && m in p
    ensures Up(p[n := q], m, k) == Up(p, m, k)
    decreases k
  {
    if k > 0 && p[m].Some? {
      LeafUnseen(p, n, q, p[m].value, k - 1);
    }
  }

  /** `DELETE FROM nodes` cascades over the subtree; what is left is still a forest. */
  lemma CascadeKeepsForest(p: Parents, n: NodeId)
    requires IsForest(p)
    ensures IsForest(p - Subtree(p, {n}))
  {
    var gone := Subtree(p, {n});
    var p' := p - gone;
    forall m | m in p' && p'[m].Some?
      ensures p'[m].value in p'
    {
      if p[m].value in gone {
        ChildInSubtree(p, m, {n});
      }
    }
    forall m | m in p'
      ensures Rooted(p', m)
    {
      var k: nat :| Up(p, m, k).None?;
      SurvivorChain(p, n, m, k);
    }
  }

  lemma {:induction false} SurvivorChain(p: Parents, n: NodeId, m: NodeId, k: nat)
    requires IsForest(p) && m in p && m !in Subtree(p, {n})
    ensures Up(p - Subtree(p, {n}), m, k) == Up(p, m, k)
    decreases k
  {
    if k > 0 && p[m].Some? {
      if p[m].value in Subtree(p, {n}) {
        ChildInSubtree(p, m, {n});
      }
      SurvivorChain(p, n, p[m].value, k - 1);
    }
  }
}
