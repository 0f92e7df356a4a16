/**
 Symbolic cryptography. A wrap is an envelope that gives its secret to whoever holds the key it was
 made under; an observer who holds some keys and every envelope ever stored learns exactly the keys
 at the end of a chain of envelopes.
 */
module KeyGraph {
  import opened Forest

  type UserId = nat
  type GroupId = nat
  type OrgId = nat
  type PubKey = nat // stands for the hex of a public key

  /** Private keys of principals (a group or organisation has one per key pair) and node keys (one per epoch). */
  datatype Key =
    | UserKey(user: UserId)
    | GroupKey(group: GroupId, pub: PubKey)
    | OrgKey(org: OrgId, generation: nat)
    | Cek(node: NodeId, epoch: nat)

  datatype Wrap = Wrap(under: Key, secret: Key)

  ghost predicate Chain(ws: set<Wrap>, ks: seq<Key>) {
    && |ks| > 0
    && forall i :: 0 < i < |ks| ==> Wrap(ks[i - 1], ks[i]) in ws
  }

  ghost predicate Derives(ws: set<Wrap>, from: Key, to: Key) {
    exists ks :: Chain(ws, ks) && ks[0] == from && ks[|ks| - 1] == to
  }

  /** The envelopes the Drive stores: principals receive keys; a node key wraps only its predecessor. */
  predicate WellShaped(w: Wrap) {
    match w.under
    case UserKey(_) => !w.secret.UserKey?
    case GroupKey(_, _) => w.secret.Cek?
    case OrgKey(_, _) => w.secret.Cek?
    case Cek(n, e) => w.secret.Cek? && w.secret.node == n && w.secret.epoch + 1 == e
  }

  /** u was given the key of epoch e of n, directly or through a group or recovery key u was given. */
  ghost predicate Opens(ws: set<Wrap>, u: UserId, n: NodeId, e: nat) {
    || Wrap(UserKey(u), Cek(n, e)) in ws
    || exists k: Key :: !k.Cek? && Wrap(UserKey(u), k) in ws && Wrap(k, Cek(n, e)) in ws
  }

  /** The links stored by rotations lead from the key of epoch hi back to the key of epoch lo. */
  ghost predicate BackLinked(ws: set<Wrap>, n: NodeId, hi: nat, lo: nat) {
    forall i: nat :: lo <= i < hi ==> Wrap(Cek(n, i + 1), Cek(n, i)) in ws
  }

  ghost predicate Obtains(ws: set<Wrap>, u: UserId, n: NodeId, e: nat) {
    exists hi: nat :: hi >= e && Opens(ws, u, n, hi) && BackLinked(ws, n, hi, e)
  }

  lemma DerivesStep(ws: set<Wrap>, from: Key, mid: Key, to: Key)
    requires Derives(ws, from, mid) && Wrap(mid, to) in ws
    ensures Derives(ws, from, to)
  {
    var ks :| Chain(ws, ks) && ks[0] == from && ks[|ks| - 1] == mid;
    var ks' := ks + [to];
    assert Chain(ws, ks') && ks'[0] == from && ks'[|ks'| - 1] == to;
  }

  lemma DerivesSelf(ws: set<Wrap>, k: Key)
    ensures Derives(ws, k, k)
  {
    assert Chain(ws, [k]) && [k][0] == k && [k][|[k]| - 1] == k;
  }

  /** Everything u can learn from well-shaped envelopes. */
  ghost predicate Learnt(ws: set<Wrap>, u: UserId, k: Key) {
    match k
    case UserKey(v) => v == u
    case Cek(n, e) => Obtains(ws, u, n, e)
    case _ => Wrap(UserKey(u), k) in ws
  }

  lemma LearntIsClosed(ws: set<Wrap>, u: UserId, w: Wrap)
    requires WellShaped(w) && w in ws && Learnt(ws, u, w.under)
    ensures Learnt(ws, u, w.secret)
  {
    if w.secret.Cek? {
      var n, e := w.secret.node, w.secret.epoch;
      if w.under.Cek? {
        var hi: nat :| hi >= e + 1 && Opens(ws, u, n, hi) && BackLinked(ws, n, hi, e + 1);
        assert BackLinked(ws, n, hi, e);
      } else {
        assert Opens(ws, u, n, e);
        assert BackLinked(ws, n, e, e);
      }
    }
  }

  lemma {:induction false} ChainIsLearnt(ws: set<Wrap>, u: UserId, ks: seq<Key>, i: nat)
    requires forall w :: w in ws ==> WellShaped(w)
    requires Chain(ws, ks) && ks[0] == UserKey(u) && i < |ks|
    ensures Learnt(ws, u, ks[i])
  {
    if i > 0 {
      ChainIsLearnt(ws, u, ks, i - 1);
      LearntIsClosed(ws, u, Wrap(ks[i - 1], ks[i]));
    }
  }

  lemma {:induction false} ObtainsDerives(ws: set<Wrap>, u: UserId, n: NodeId, hi: nat, e: nat)
    requires e <= hi && Opens(ws, u, n, hi) && BackLinked(ws, n, hi, e)
    ensures Derives(ws, UserKey(u), Cek(n, e))
    decreases hi - e
  {
    DerivesSelf(ws, UserKey(u));
    if e == hi {
      if Wrap(UserKey(u), Cek(n, e)) in ws {
        DerivesStep(ws, UserKey(u), UserKey(u), Cek(n, e));
      } else {
        var k: Key :| !k.Cek? && Wrap(UserKey(u), k) in ws && Wrap(k, Cek(n, e)) in ws;
        DerivesStep(ws, UserKey(u), UserKey(u), k);
        DerivesStep(ws, UserKey(u), k, Cek(n, e));
      }
    } else {
      ObtainsDerives(ws, u, n, hi, e + 1);
      DerivesStep(ws, UserKey(u), Cek(n, e + 1), Cek(n, e));
    }
  }

  /** What u can derive is exactly what u has learnt; for node keys: a key of e or one linked back to e. */
  lemma DerivesIff(ws: set<Wrap>, u: UserId, k: Key)
    requires forall w :: w in ws ==> WellShaped(w)
    ensures Derives(ws, UserKey(u), k) <==> Learnt(ws, u, k)
  {
    if Derives(ws, UserKey(u), k) {
      var ks :| Chain(ws, ks) && ks[0] == UserKey(u) && ks[|ks| - 1] == k;
      ChainIsLearnt(ws, u, ks, |ks| - 1);
    }
    if Learnt(ws, u, k) {
      DerivesSelf(ws, UserKey(u));
      if k.Cek? {
        var hi: nat :| hi >= k.epoch && Opens(ws, u, k.node, hi) && BackLinked(ws, k.node, hi, k.epoch);
        ObtainsDerives(ws, u, k.node, hi, k.epoch);
      } else if k != UserKey(u) {
        DerivesStep(ws, UserKey(u), UserKey(u), k);
      }
    }
  }
}
