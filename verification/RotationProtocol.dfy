/**
 What stays readable while the key of a node rotates (web-studio/src/drive-cloud/rotate.ts,
 server/src/routes/versions.ts, server/src/routes/nodes.ts): the server keeps the key before the current
 one in a single slot, and clients re-encrypt the stored versions one by one, in steps that interleave
 with writes and with other clients and may stop anywhere.
 */
module RotationProtocol {
  import opened Prelude
  import opened Preconditions

  /** A stored version: the epoch its row is stamped with, and that of the key its blob is under. */
  datatype Version = Version(stamp: nat, under: nat)

  type Versions = map<VersionId, Version>

  /** One node; `slot` is the epoch of the key kept, wrapped under the current one. */
  datatype State = State(epoch: nat, slot: Option<nat>, versions: Versions)

  /** `base` and `key` are the epochs of the keys the client used. */
  datatype Event =
    | Put(version: VersionId, base: nat)
    | Rotate(expected: nat, keep: bool)
    | Reencrypt(version: VersionId, key: nat)
    | Delete(version: VersionId)

  const NEW: State := State(1, None, map[])

  function Step(s: State, e: Event): State {
    match e
    case Put(v, base) => if v in s.versions || base != s.epoch then s else s.(versions := s.versions[v := Version(s.epoch, base)])
    case Rotate(expected, keep) =>
      if expected != s.epoch then s else State(s.epoch + 1, if keep then Some(expected) else None, s.versions)
    case Reencrypt(v, key) =>
      if v !in s.versions || s.versions[v].stamp >= s.epoch then s else s.(versions := s.versions[v := Version(s.epoch, key)])
    case Delete(v) => s.(versions := s.versions - {v})
  }

  function Run(s: State, es: seq<Event>): State
    decreases |es|
  {
    if |es| == 0 then s else Run(Step(s, es[0]), es[1..])
  }

  /** Whoever holds the current key can decrypt the version, with it or with the key in the slot. */
  predicate Readable(s: State, v: VersionId)
    requires v in s.versions
  {
    s.versions[v].under == s.epoch || s.slot == Some(s.versions[v].under)
  }

  predicate AllReadable(s: State) {
    forall v | v in s.versions :: Readable(s, v)
  }

  /** No version is stamped with an earlier epoch. */
  predicate Level(s: State) {
    forall v | v in s.versions :: s.versions[v].stamp == s.epoch
  }

  /** Stamps say which key the blobs are under. */
  predicate Faithful(versions: Versions) {
    forall v | v in versions :: versions[v].stamp == versions[v].under
  }

  predicate Inv(s: State) {
    && Faithful(s.versions) && (s.slot.Some? ==> s.slot.value + 1 == s.epoch) && AllReadable(s)
  }

  /** A client rotates only when it has left no version behind, and fills the slot. */
  predicate ByProtocol(s: State, e: Event) {
    e.Rotate? && e.expected == s.epoch ==> e.keep && Level(s)
  }

  /** A re-encrypted blob arrives while its key is still the current one. */
  predicate Timely(s: State, e: Event) {
    e.Reencrypt? ==> e.key == s.epoch
  }

  predicate ProtocolRun(s: State, es: seq<Event>)
    decreases |es|
  {
    |es| == 0 || (ByProtocol(s, es[0]) && Timely(s, es[0]) && ProtocolRun(Step(s, es[0]), es[1..]))
  }

  // ---------------------------------------------------------------- what the protocol keeps

  lemma StepKeeps(s: State, e: Event)
    requires Inv(s) && ByProtocol(s, e) && Timely(s, e)
    ensures Inv(Step(s, e))
  {
    var t := Step(s, e);
    forall v | v in t.versions
      ensures Readable(t, v)
    {
      assert v in s.versions ==> Readable(s, v);
    }
  }

  lemma {:induction false} RunKeeps(s: State, es: seq<Event>)
    requires Inv(s) && ProtocolRun(s, es)
    ensures Inv(Run(s, es))
    decreases |es|
  {
    if |es| > 0 {
      StepKeeps(s, es[0]);
      RunKeeps(Step(s, es[0]), es[1..]);
    }
  }

  /** Over any run of writes, rotations and re-encryptions in which rotations follow the protocol and no
      re-encrypted blob arrives late, wherever each client stops: every version can be decrypted with the
      current key or the one in the slot. */
  lemma AlwaysReadable(es: seq<Event>, v: VersionId)
    requires ProtocolRun(NEW, es) && v in Run(NEW, es).versions
    ensures Readable(Run(NEW, es), v)
  {
    RunKeeps(NEW, es);
  }

  /** Once level, the versions stay so until the next rotation: what a client checked still holds when its
      rotation is accepted. */
  lemma {:induction false} LevelUntilRotated(s: State, es: seq<Event>)
    requires Level(s) && forall e :: e in es ==> !(e.Rotate? && e.expected == s.epoch)
    ensures Level(Run(s, es)) && Run(s, es).epoch == s.epoch
    decreases |es|
  {
    if |es| > 0 {
      assert es[0] in es;
      LevelUntilRotated(Step(s, es[0]), es[1..]);
    }
  }

  // ---------------------------------------------------------------- and exactly when

  /** A rotation leaves everything readable exactly when no version is behind and, if there are any, the
      slot is filled: the slot is one level, not a stack. */
  lemma RotationReadableIff(s: State, keep: bool)
    requires Inv(s)
    ensures AllReadable(Step(s, Rotate(s.epoch, keep))) <==> s.versions == map[] || (keep && Level(s))
  {
    var t := Step(s, Rotate(s.epoch, keep));
    forall v | v in s.versions
      ensures Readable(t, v) <==> keep && s.versions[v].stamp == s.epoch
    {
      assert Readable(s, v);
    }
    if s.versions != map[] {
      var v :| v in s.versions;
    }
  }

  /** An accepted re-encryption stamps the version with the epoch of the node, whatever key it was made with.
      The version then outlives the next rotation exactly when that key was still the current one. */
  lemma ReencryptionReadableIff(s: State, v: VersionId, key: nat)
    requires Inv(s) && v in s.versions && s.versions[v].stamp < s.epoch && key <= s.epoch
    ensures var t := Step(s, Reencrypt(v, key));
            && v in t.versions && t.versions[v].stamp == s.epoch
            && (Faithful(t.versions) <==> key == s.epoch)
            && (Readable(Step(t, Rotate(t.epoch, true)), v) <==> key == s.epoch)
  {
    var t := Step(s, Reencrypt(v, key));
    assert t.versions[v] == Version(s.epoch, key);
    assert forall w :: w in t.versions && w != v ==> t.versions[w] == s.versions[w];
  }

  /** Two clients: the first rotates to epoch 2 and fetches the version; the second re-encrypts it to the end
      and rotates to epoch 3; then the blob of the first arrives and is accepted. */
  function LateRun(): seq<Event> {
    [Put(0, 1), Rotate(1, true), Reencrypt(0, 2), Rotate(2, true), Reencrypt(0, 2), Rotate(3, true)]
  }

  predicate RotationsByProtocol(s: State, es: seq<Event>)
    decreases |es|
  {
    |es| == 0 || (ByProtocol(s, es[0]) && RotationsByProtocol(Step(s, es[0]), es[1..]))
  }

  lemma RunsOn(s: State, e: Event, es: seq<Event>)
    ensures Run(s, [e] + es) == Run(Step(s, e), es)
    ensures RotationsByProtocol(s, [e] + es) <==> ByProtocol(s, e) && RotationsByProtocol(Step(s, e), es)
  {
    assert ([e] + es)[1..] == es;
  }

  /** Every rotation follows the protocol, and yet in the end neither key the server keeps opens the version. */
  lemma LateBlobIsLost()
    ensures RotationsByProtocol(NEW, LateRun())
    ensures 0 in Run(NEW, LateRun()).versions && !Readable(Run(NEW, LateRun()), 0)
  {
    var s1 := State(1, None, map[0 := Version(1, 1)]);
    var s2 := State(2, Some(1), map[0 := Version(1, 1)]);
    var s3 := State(2, Some(1), map[0 := Version(2, 2)]);
    var s4 := State(3, Some(2), map[0 := Version(2, 2)]);
    var s5 := State(3, Some(2), map[0 := Version(3, 2)]);
    var s6 := State(4, Some(3), map[0 := Version(3, 2)]);
    assert Step(NEW, Put(0, 1)) == s1 && Step(s1, Rotate(1, true)) == s2 && Step(s2, Reencrypt(0, 2)) == s3;
    assert Step(s3, Rotate(2, true)) == s4 && Step(s4, Reencrypt(0, 2)) == s5 && Step(s5, Rotate(3, true)) == s6;
    assert LateRun() == [Put(0, 1)] + ([Rotate(1, true)] + ([Reencrypt(0, 2)] + ([Rotate(2, true)] + ([Reencrypt(0, 2)] + ([Rotate(3, true)] + [])))));
    RunsOn(s5, Rotate(3, true), []);
    RunsOn(s4, Reencrypt(0, 2), [Rotate(3, true)] + []);
    RunsOn(s3, Rotate(2, true), [Reencrypt(0, 2)] + ([Rotate(3, true)] + []));
    RunsOn(s2, Reencrypt(0, 2), [Rotate(2, true)] + ([Reencrypt(0, 2)] + ([Rotate(3, true)] + [])));
    RunsOn(s1, Rotate(1, true), [Reencrypt(0, 2)] + ([Rotate(2, true)] + ([Reencrypt(0, 2)] + ([Rotate(3, true)] + []))));
    RunsOn(NEW, Put(0, 1), [Rotate(1, true)] + ([Reencrypt(0, 2)] + ([Rotate(2, true)] + ([Reencrypt(0, 2)] + ([Rotate(3, true)] + [])))));
  }

  // ---------------------------------------------------------------- the client

  /** All versions, in the order the server lists them. */
  predicate Lists(listed: seq<VersionId>, versions: Versions) {
    (forall v | v in listed :: v in versions) && (forall v | v in versions :: v in listed)
  }

  class Node {
    var epoch: nat
    var slot: Option<nat>
    var versions: Versions

    ghost function Abs(): State
      reads this
    {
      State(epoch, slot, versions)
    }

    constructor ()
      ensures Abs() == NEW
    {
      epoch, slot, versions := 1, None, map[];
    }

    /** The server's side of a rotation. */
    method Swap(expected: nat, keep: bool) returns (ok: bool)
      modifies this
      ensures Abs() == Step(old(Abs()), Rotate(expected, keep)) && ok == (expected == old(epoch))
    {
      if expected != epoch {
        return false;
      }
      epoch, slot := epoch + 1, if keep then Some(expected) else None;
      ok := true;
    }

    /** The server's side of a re-encryption; the request does not say which key it used. */
    method PutVersionContent(v: VersionId, key: nat) returns (ok: bool)
      modifies this`versions
      ensures Abs() == Step(old(Abs()), Reencrypt(v, key)) && ok == (v in old(versions) && old(versions)[v].stamp < epoch)
    {
      if v !in versions || versions[v].stamp >= epoch {
        return false;
      }
      versions := versions[v := Version(epoch, key)];
      ok := true;
    }

    /** Re-encrypts what is behind and can be read with `from`; `failing` are the requests that fail. */
    method ReencryptAll(listed: seq<VersionId>, from: nat, failing: set<VersionId>) returns (remaining: nat)
      requires Lists(listed, versions)
      modifies this`versions
      ensures versions.Keys == old(versions).Keys
      ensures forall v | v in versions :: versions[v] ==
                if old(versions)[v].stamp < epoch && old(versions)[v].under == from && v !in failing then Version(epoch, epoch)
                else old(versions)[v]
      ensures remaining == 0 <==> forall v | v in versions :: versions[v].stamp >= epoch
    {
      remaining := 0;
      var i := 0;
      while i < |listed|
        invariant i <= |listed| && versions.Keys == old(versions).Keys && Lists(listed, versions)
        invariant forall v | v in versions :: versions[v] ==
                    if v in listed[..i] && old(versions)[v].stamp < epoch && old(versions)[v].under == from && v !in failing
                    then Version(epoch, epoch) else old(versions)[v]
        invariant remaining == 0 <==> forall v | v in listed[..i] :: versions[v].stamp >= epoch
      {
        var v := listed[i];
        assert forall w :: w in listed[..i + 1] <==> w in listed[..i] || w == v;
        if versions[v].stamp < epoch {
          if versions[v].under == from && v !in failing {
            var ok := PutVersionContent(v, epoch);
          } else {
            remaining := remaining + 1;
          }
        }
        i := i + 1;
      }
      assert listed[..i] == listed;
    }

    /** Levels the stragglers of an interrupted rotation first, or refuses; then swaps the key; then
        re-encrypts what it can. With nobody in between, whatever fails, nothing becomes unreadable. */
    method RotateNode(listed: seq<VersionId>, failing: set<VersionId>, failingLater: set<VersionId>) returns (blocked: bool, incomplete: bool)
      requires Inv(Abs()) && Lists(listed, versions)
      modifies this
      ensures Inv(Abs()) && versions.Keys == old(versions).Keys
      ensures epoch == (if blocked then old(epoch) else old(epoch) + 1) && (!blocked ==> slot == Some(old(epoch)))
      ensures !blocked && !incomplete ==> forall v | v in versions :: versions[v] == Version(epoch, epoch)
      ensures failing == {} ==> !blocked
      ensures failing == {} && failingLater == {} ==> !incomplete
    {
      var current := epoch;
      NoneAhead(Abs());
      if slot.Some? {
        var remaining := ReencryptAll(listed, slot.value, failing);
        if remaining > 0 {
          return true, true;
        }
      }
      assert Inv(Abs()) && Level(Abs());
      var ok := Swap(current, true);
      var left := ReencryptAll(listed, current, failingLater);
      return false, left > 0;
    }
  }

  lemma NoneAhead(s: State)
    requires Inv(s)
    ensures forall v :: v in s.versions ==> s.versions[v].stamp == s.epoch || s.slot == Some(s.versions[v].stamp)
    ensures forall v :: v in s.versions ==> s.versions[v].stamp <= s.epoch
  {
    assert forall v :: v in s.versions ==> Readable(s, v);
  }
}
