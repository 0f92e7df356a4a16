/**
 The shape of the chained log, apart from what is hashed (server/src/lib/audit-chain.ts): each row is
 a link with the hash it names before it and its own, and whether its own was recomputed.
 */
module HashChain {
  import opened Prelude

  type Byte = x: int | 0 <= x < 256

  /** Digests of any length: an injective hash into 32 bytes cannot exist. */
  type Digest = seq<Byte>

  /** The root of every chain: 32 zero bytes. */
  function Genesis(): (d: Digest)
    ensures |d| == 32 && forall i :: 0 <= i < 32 ==> d[i] == 0
  {
    seq(32, i => 0)
  }

  /** `legacy`: recomputed, but only under a historical form of its metadata. */
  datatype Link = Link(id: nat, prev: Digest, entry: Option<Digest>, hashOk: bool, legacy: bool)

  datatype Verdict = Verdict(
    total: nat, hashed: nat, expectedPrev: Digest, started: bool, broken: Option<nat>, legacy: nat)

  function Start(): Verdict {
    Verdict(0, 0, Genesis(), false, None, 0)
  }

  function Check(v: Verdict, l: Link): Verdict {
    if v.broken.Some? || (l.entry.None? && !v.started) then v.(total := v.total + 1)
    else if l.entry.None? then v.(total := v.total + 1, broken := Some(l.id))
    else
      var legacy := if l.hashOk && l.legacy then v.legacy + 1 else v.legacy;
      if !l.hashOk || l.prev != (if v.started then v.expectedPrev else Genesis())
      then Verdict(v.total + 1, v.hashed + 1, v.expectedPrev, v.started, Some(l.id), legacy)
      else Verdict(v.total + 1, v.hashed + 1, l.entry.value, true, None, legacy)
  }

  /** The verifier in one pass. */
  function Scan(links: seq<Link>): Verdict {
    if |links| == 0 then Start() else Check(Scan(links[..|links| - 1]), links[|links| - 1])
  }

  predicate Accepted(links: seq<Link>) {
    Scan(links).broken.None?
  }

  /** Where the chained tail starts: after the last row without a hash. */
  function TailStart(links: seq<Link>): (k: nat)
    ensures k <= |links| && (forall i :: k <= i < |links| ==> links[i].entry.Some?)
    ensures k > 0 ==> links[k - 1].entry.None?
  {
    if |links| == 0 then 0 else if links[|links| - 1].entry.None? then |links| else TailStart(links[..|links| - 1])
  }

  /** What an accepted scan says of the table: its counts are exact. */
  lemma {:induction false} AcceptedCounts(links: seq<Link>)
    requires Accepted(links)
    ensures Scan(links).total == |links| && Scan(links).hashed == |links| - TailStart(links)
    ensures Scan(links).started <==> TailStart(links) < |links|
    ensures Scan(links).started ==> links[|links| - 1].entry == Some(Scan(links).expectedPrev)
  {
    if |links| > 0 {
      AcceptedCounts(links[..|links| - 1]);
    }
  }

  /** Row i continues the chain that starts at k: its hash was recomputed, and it names the root if it
      is the first and the entry hash of the row before it otherwise. */
  predicate Continues(links: seq<Link>, k: nat, i: nat)
    requires k <= i < |links|
  {
    links[i].hashOk && if i == k then links[i].prev == Genesis() else Some(links[i].prev) == links[i - 1].entry
  }

  /** The unchained rows come first, and all others continue the chain. */
  predicate Chained(links: seq<Link>, k: nat) {
    && k <= |links| && (forall i | 0 <= i < k :: links[i].entry.None?)
    && (forall i | k <= i < |links| :: Continues(links, k, i))
  }

  lemma ChainedExtend(links: seq<Link>, k: nat)
    requires k < |links|
    ensures var n := |links| - 1; Chained(links, k) <==> Chained(links[..n], k) && Continues(links, k, n)
  {
    var n := |links| - 1;
    var shorter := links[..n];
    assert forall i :: 0 <= i < n ==> links[i] == shorter[i];
    forall i | k <= i < n
      ensures Continues(links, k, i) <==> Continues(shorter, k, i)
    {
    }
  }

  lemma UnhashedEnd(links: seq<Link>)
    requires |links| > 0 && links[|links| - 1].entry.None?
    ensures var n := |links| - 1;
            var k := TailStart(links[..n]);
            Chained(links, n + 1) <==> Chained(links[..n], k) && k == n
  {
    var n := |links| - 1;
    var shorter := links[..n];
    assert forall i :: 0 <= i < n ==> links[i] == shorter[i];
    if TailStart(shorter) < n {
      assert links[n - 1] == shorter[n - 1];
    }
  }

  /** A chain is accepted exactly when it is well chained from its tail on. */
  lemma {:induction false} AcceptedIff(links: seq<Link>)
    ensures Accepted(links) <==> Chained(links, TailStart(links))
  {
    if |links| > 0 {
      var shorter := links[..|links| - 1];
      AcceptedIff(shorter);
      if links[|links| - 1].entry.Some? {
        ChainedExtend(links, TailStart(links));
      } else {
        UnhashedEnd(links);
      }
      if Accepted(shorter) {
        AcceptedCounts(shorter);
      }
    }
  }

  /** Whatever the table, every row is counted; a broken chain names its first bad row, and nothing
      after that row is checked or counted as hashed. */
  lemma {:induction false} BrokenIsFirst(links: seq<Link>)
    ensures Scan(links).total == |links|
    ensures Scan(links).broken.Some? ==> exists k :: FirstBad(links, k)
  {
    if |links| > 0 {
      var n := |links| - 1;
      BrokenIsFirst(links[..n]);
      if Scan(links[..n]).broken.Some? {
        var k: nat :| FirstBad(links[..n], k);
        StillFirstBad(links, k);
      } else if Scan(links).broken.Some? {
        assert links[..n + 1] == links;
        assert FirstBad(links, n);
      }
    }
  }

  lemma StillFirstBad(links: seq<Link>, k: nat)
    requires |links| > 0 && FirstBad(links[..|links| - 1], k)
    ensures FirstBad(links, k)
  {
    var shorter := links[..|links| - 1];
    assert shorter[..k] == links[..k] && shorter[..k + 1] == links[..k + 1];
    assert Check(Scan(shorter), links[|links| - 1]) == Scan(shorter).(total := |links|);
  }

  /** The scan breaks at row k, and from there on only the total changes. */
  ghost predicate FirstBad(links: seq<Link>, k: nat) {
    && k < |links| && Accepted(links[..k]) && Scan(links[..k + 1]).broken == Some(links[k].id)
    && Scan(links) == Scan(links[..k + 1]).(total := |links|)
  }

  /** No row from k on was accepted in a legacy form. */
  predicate NoLegacyFrom(links: seq<Link>, k: nat) {
    forall i | k <= i < |links| :: !links[i].legacy
  }

  lemma LegacyExtend(links: seq<Link>, k: nat)
    requires k < |links|
    ensures NoLegacyFrom(links, k) <==> NoLegacyFrom(links[..|links| - 1], k) && !links[|links| - 1].legacy
  {
    assert forall i :: 0 <= i < |links| - 1 ==> links[i] == links[..|links| - 1][i];
  }

  lemma {:induction false} LegacyCounts(links: seq<Link>)
    requires Accepted(links)
    ensures Scan(links).legacy == 0 <==> NoLegacyFrom(links, TailStart(links))
  {
    AcceptedCounts(links);
    if |links| > 0 {
      LegacyCounts(links[..|links| - 1]);
      AcceptedCounts(links[..|links| - 1]);
      if links[|links| - 1].entry.Some? {
        LegacyExtend(links, TailStart(links));
      }
    }
  }

  /** No two recomputed links with one entry hash name different hashes before, and none is the root. */
  predicate Binding(a: seq<Link>, b: seq<Link>) {
    && (forall i, j | 0 <= i < |a| && 0 <= j < |b| ::
          a[i].hashOk && b[j].hashOk && a[i].entry.Some? && a[i].entry == b[j].entry ==> a[i].prev == b[j].prev)
    && (forall i | 0 <= i < |a| :: a[i].hashOk ==> a[i].entry != Some(Genesis()))
    && (forall j | 0 <= j < |b| :: b[j].hashOk ==> b[j].entry != Some(Genesis()))
  }

  function Hashes(links: seq<Link>): (ds: seq<Option<Digest>>)
    ensures |ds| == |links|
  {
    if |links| == 0 then [] else Hashes(links[..|links| - 1]) + [links[|links| - 1].entry]
  }

  lemma {:induction false} HashAt(links: seq<Link>, i: nat)
    requires i < |links|
    ensures Hashes(links)[i] == links[i].entry
  {
    if i < |links| - 1 {
      HashAt(links[..|links| - 1], i);
    }
  }

  /** The last hash determines all the hashes before it, back to the start of the chain. */
  lemma {:induction false} LastHashDetermines(a: seq<Link>, k: nat, m: nat, b: seq<Link>, l: nat, n: nat)
    requires Chained(a, k) && Chained(b, l) && Binding(a, b) && k < m <= |a| && l < n <= |b|
    requires a[m - 1].entry.Some? && a[m - 1].entry == b[n - 1].entry
    ensures Hashes(a[k..m]) == Hashes(b[l..n])
    decreases m
  {
    LastLink(a, k, m);
    LastLink(b, l, n);
    assert a[m - 1].prev == b[n - 1].prev;
    if k < m - 1 && l < n - 1 {
      LastHashDetermines(a, k, m - 1, b, l, n - 1);
    }
    assert a[k..m][..m - 1 - k] == a[k..m - 1];
    assert b[l..n][..n - 1 - l] == b[l..n - 1];
  }

  lemma LastLink(links: seq<Link>, k: nat, m: nat)
    requires Chained(links, k) && k < m <= |links|
    ensures links[m - 1].hashOk
    ensures if k == m - 1 then links[m - 1].prev == Genesis() else links[m - 2].hashOk && links[m - 2].entry == Some(links[m - 1].prev)
  {
    assert Continues(links, k, m - 1);
    if k < m - 1 {
      assert Continues(links, k, m - 2);
    }
  }

  function Tail(links: seq<Link>): seq<Link> {
    links[TailStart(links)..|links|]
  }

  lemma TailIsOk(links: seq<Link>, i: nat)
    requires Accepted(links) && i < |Tail(links)|
    ensures Tail(links)[i].hashOk && Tail(links)[i].entry.Some?
  {
    AcceptedIff(links);
    assert Continues(links, TailStart(links), TailStart(links) + i);
  }

  /** Two accepted chains that end in the same hash have tails with the same hashes. */
  lemma TailsMatch(a: seq<Link>, b: seq<Link>)
    requires Accepted(a) && Accepted(b) && Binding(a, b)
    requires |a| > 0 && |b| > 0 && a[|a| - 1].entry.Some? && a[|a| - 1].entry == b[|b| - 1].entry
    ensures Hashes(Tail(a)) == Hashes(Tail(b))
  {
    AcceptedTail(a);
    AcceptedTail(b);
    LastHashDetermines(a, TailStart(a), |a|, b, TailStart(b), |b|);
  }

  lemma AcceptedTail(links: seq<Link>)
    requires Accepted(links) && |links| > 0 && links[|links| - 1].entry.Some?
    ensures Chained(links, TailStart(links)) && TailStart(links) < |links|
  {
    AcceptedIff(links);
  }
}
