/**
 The audit table as the server uses it (server/src/lib/audit.ts and `verifyAuditChain` in
 server/src/lib/audit-chain.ts): rows of every organisation appended one at a time, and a verifier
 that reads one organisation's rows page by page.
 */
module AuditLog {
  import opened Prelude
  import opened Json
  import opened Canonical
  import opened HashChain
  import opened AuditChain

  /** The rows of one organisation; None is the system chain. */
  function ChainOf(rows: seq<Row>, org: Option<Text>): (chain: seq<Row>) {
    if |rows| == 0 then []
    else
      var n := |rows| - 1;
      ChainOf(rows[..n], org) + if rows[n].fields.org == org then [rows[n]] else []
  }

  predicate Increasing(rows: seq<Row>) {
    forall i, j | 0 <= i < j < |rows| :: rows[i].id < rows[j].id
  }

  lemma {:induction false} ChainSubset(rows: seq<Row>, org: Option<Text>)
    ensures forall r :: r in ChainOf(rows, org) ==> r in rows
  {
    if |rows| > 0 {
      ChainSubset(rows[..|rows| - 1], org);
    }
  }

  lemma {:induction false} ChainIncreasing(rows: seq<Row>, org: Option<Text>)
    requires Increasing(rows)
    ensures Increasing(ChainOf(rows, org))
  {
    if |rows| > 0 {
      var n := |rows| - 1;
      ChainIncreasing(rows[..n], org);
      ChainSubset(rows[..n], org);
      var before := ChainOf(rows[..n], org);
      forall i | 0 <= i < |before|
        ensures before[i].id < rows[n].id
      {
        assert before[i] in before;
      }
    }
  }

  // ---------------------------------------------------------------- appending

  /** A call of `audit`; `stored` is the metadata column as it will be read back, `fails` a failed insert. */
  datatype Call = Call(
    org: Option<Text>, actor: Option<Text>, action: Text, resourceType: Text, resource: Option<Text>,
    metadata: Js, ip: Text, createdAt: Text, stored: Json, fails: bool)

  /** The database gives JSON values back up to the order of object keys. */
  predicate ReadsBack(c: Call) {
    IsJs(c.metadata) && WellFormed(c.stored) && MeaningOf(c.stored) == MeaningOf(Canon(c.metadata))
  }

  function Slice64(ip: Text): Text {
    if |ip| <= 64 then ip else ip[..64]
  }

  function FieldsOf(c: Call, metadata: Json): Fields {
    Fields(c.org, c.actor, c.action, c.resourceType, c.resource, metadata, Slice64(c.ip), c.createdAt)
  }

  /** The entry hash of the last row of the chain, the root when there is none. */
  function LastHash(chain: seq<Row>): Digest {
    if |chain| > 0 && chain[|chain| - 1].entry.Some? then chain[|chain| - 1].entry.value else Genesis()
  }

  function NewRow(eh: EntryHasher, rows: seq<Row>, id: nat, c: Call): Row {
    var prev := LastHash(ChainOf(rows, c.org));
    Row(id, FieldsOf(c, c.stored), Some(prev), Some(eh(prev, FieldsOf(c, Canon(c.metadata)))))
  }

  lemma NewRowChecks(eh: EntryHasher, rows: seq<Row>, id: nat, c: Call)
    requires ReadsBack(c) && Respects(eh)
    ensures StoredIsHashed(eh, NewRow(eh, rows, id, c)) && WellFormed(NewRow(eh, rows, id, c).fields.metadata)
  {
    var prev := LastHash(ChainOf(rows, c.org));
    CanonWellFormed(c.metadata);
    CanonMeaning(c.stored, Canon(c.metadata));
    assert SameEntry(FieldsOf(c, c.stored), FieldsOf(c, Canon(c.metadata)));
    assert eh(prev, FieldsOf(c, c.stored)) == eh(prev, FieldsOf(c, Canon(c.metadata)));
  }

  lemma CanonMeaning(a: Json, b: Json)
    requires MeaningOf(a) == MeaningOf(b)
    ensures MeaningOf(CanonJson(a)) == MeaningOf(CanonJson(b))
  {
  }

  lemma LinksOneMore(eh: EntryHasher, rows: seq<Row>, r: Row)
    ensures Links(eh, rows + [r]) == Links(eh, rows) + [LinkOf(eh, r)]
  {
  }

  lemma ChainOneMore(rows: seq<Row>, r: Row, org: Option<Text>)
    ensures ChainOf(rows + [r], org) == ChainOf(rows, org) + if r.fields.org == org then [r] else []
  {
    assert (rows + [r])[..|rows|] == rows;
  }

  /** A link with the right hash before it, and recomputed as stored, extends an accepted chain. */
  lemma ExtendAccepted(links: seq<Link>, l: Link)
    requires Accepted(links) && l.entry.Some? && l.hashOk && !l.legacy
    requires l.prev == if |links| > 0 && links[|links| - 1].entry.Some? then links[|links| - 1].entry.value else Genesis()
    ensures Accepted(links + [l]) && Scan(links + [l]).legacy == Scan(links).legacy
    ensures Scan(links + [l]).hashed == Scan(links).hashed + 1
  {
    AcceptedCounts(links);
    assert (links + [l])[..|links|] == links;
  }

  lemma LinkOfNew(eh: EntryHasher, r: Row)
    requires StoredIsHashed(eh, r)
    ensures LinkOf(eh, r) == Link(r.id, PrevOf(r), r.entry, true, false)
  {
  }

  lemma OwnChainExtends(eh: EntryHasher, rows: seq<Row>, id: nat, c: Call)
    requires ReadsBack(c) && Respects(eh) && Accepted(Links(eh, ChainOf(rows, c.org)))
    ensures var before, after := ChainOf(rows, c.org), ChainOf(rows + [NewRow(eh, rows, id, c)], c.org);
            && Accepted(Links(eh, after)) && Scan(Links(eh, after)).legacy == Scan(Links(eh, before)).legacy
            && Scan(Links(eh, after)).hashed == Scan(Links(eh, before)).hashed + 1
  {
    var chain := ChainOf(rows, c.org);
    var r := NewRow(eh, rows, id, c);
    NewRowChecks(eh, rows, id, c);
    ChainOneMore(rows, r, c.org);
    LinksOneMore(eh, chain, r);
    LinkOfNew(eh, r);
    ExtendAccepted(Links(eh, chain), Link(id, LastHash(chain), r.entry, true, false));
  }

  lemma OtherChainsKeep(rows: seq<Row>, r: Row, org: Option<Text>)
    requires r.fields.org != org
    ensures ChainOf(rows + [r], org) == ChainOf(rows, org)
  {
    ChainOneMore(rows, r, org);
  }

  // ---------------------------------------------------------------- any interleaving of calls

  datatype Table = Table(rows: seq<Row>, nextId: nat)

  ghost predicate TableOk(eh: EntryHasher, t: Table) {
    && (forall r :: r in t.rows ==> r.id < t.nextId) && Increasing(t.rows)
    && forall org :: Accepted(Links(eh, ChainOf(t.rows, org)))
  }

  function Append(eh: EntryHasher, t: Table, c: Call): Table {
    if c.fails then t else Table(t.rows + [NewRow(eh, t.rows, t.nextId, c)], t.nextId + 1)
  }

  function Appends(eh: EntryHasher, t: Table, calls: seq<Call>): Table
    decreases |calls|
  {
    if |calls| == 0 then t else Appends(eh, Append(eh, t, calls[0]), calls[1..])
  }

  lemma AppendKeeps(eh: EntryHasher, t: Table, c: Call)
    requires TableOk(eh, t) && ReadsBack(c) && Respects(eh)
    ensures TableOk(eh, Append(eh, t, c))
    ensures forall org :: Scan(Links(eh, ChainOf(Append(eh, t, c).rows, org))).legacy == Scan(Links(eh, ChainOf(t.rows, org))).legacy
  {
    if !c.fails {
      var r := NewRow(eh, t.rows, t.nextId, c);
      forall org
        ensures Accepted(Links(eh, ChainOf(t.rows + [r], org)))
        ensures Scan(Links(eh, ChainOf(t.rows + [r], org))).legacy == Scan(Links(eh, ChainOf(t.rows, org))).legacy
      {
        if org == c.org {
          OwnChainExtends(eh, t.rows, t.nextId, c);
        } else {
          OtherChainsKeep(t.rows, r, org);
        }
      }
    }
  }

  /** Any interleaving of audit() calls, of any organisations, leaves tables that verify, and none of
      the entries it wrote is accepted in a legacy form. */
  lemma {:induction false} AnyInterleavingVerifies(eh: EntryHasher, t: Table, calls: seq<Call>, org: Option<Text>)
    requires Respects(eh) && TableOk(eh, t) && forall c :: c in calls ==> ReadsBack(c)
    ensures TableOk(eh, Appends(eh, t, calls)) && Accepted(Links(eh, ChainOf(Appends(eh, t, calls).rows, org)))
    ensures Scan(Links(eh, ChainOf(Appends(eh, t, calls).rows, org))).legacy == Scan(Links(eh, ChainOf(t.rows, org))).legacy
    decreases |calls|
  {
    if |calls| > 0 {
      AppendKeeps(eh, t, calls[0]);
      AnyInterleavingVerifies(eh, Append(eh, t, calls[0]), calls[1..], org);
    }
  }

  lemma EmptyTableOk(eh: EntryHasher)
    ensures TableOk(eh, Table([], 1))
  {
  }

  /** A log written by audit() alone verifies, for every organisation, with nothing accepted as legacy,
      whatever the hash function. */
  lemma WrittenLogVerifies(h: Hash, calls: seq<Call>, org: Option<Text>)
    requires forall c :: c in calls ==> ReadsBack(c)
    ensures var eh := AuditEntryHash(h);
            var v := Scan(Links(eh, ChainOf(Appends(eh, Table([], 1), calls).rows, org)));
            v.broken.None? && v.legacy == 0
  {
    EntryHashRespects(h);
    EmptyTableOk(AuditEntryHash(h));
    AnyInterleavingVerifies(AuditEntryHash(h), Table([], 1), calls, org);
  }

  // ---------------------------------------------------------------- what is recorded

  /** The row says who did what to what, from where and when. */
  predicate Records(r: Row, c: Call) {
    && r.fields.org == c.org && r.fields.actor == c.actor && r.fields.action == c.action
    && r.fields.resourceType == c.resourceType && r.fields.resource == c.resource && r.fields.createdAt == c.createdAt
    && r.fields.ip <= c.ip && |r.fields.ip| <= 64 && (r.fields.ip == c.ip || |r.fields.ip| == 64)
    && MeaningOf(r.fields.metadata) == MeaningOf(Canon(c.metadata))
  }

  predicate NoneOf(rows: seq<Row>, org: Option<Text>) {
    forall i | 0 <= i < |rows| :: rows[i].fields.org != org
  }

  predicate IsLastOf(rows: seq<Row>, org: Option<Text>, i: nat) {
    i < |rows| && rows[i].fields.org == org && NoneOf(rows[i + 1..], org)
  }

  /** What the new row of an organisation follows: the last of its rows, when that is hashed; else the root. */
  ghost predicate Follows(prev: Option<Digest>, rows: seq<Row>, org: Option<Text>) {
    && (NoneOf(rows, org) ==> prev == Some(Genesis()))
    && (forall i: nat :: IsLastOf(rows, org, i) ==> prev == if rows[i].entry.Some? then rows[i].entry else Some(Genesis()))
  }

  lemma {:induction false} NoneInChain(rows: seq<Row>, org: Option<Text>)
    requires NoneOf(rows, org)
    ensures ChainOf(rows, org) == []
  {
    if |rows| > 0 {
      NoneInChain(rows[..|rows| - 1], org);
    }
  }

  lemma {:induction false} LastOfChain(rows: seq<Row>, org: Option<Text>, i: nat)
    requires IsLastOf(rows, org, i)
    ensures |ChainOf(rows, org)| > 0 && ChainOf(rows, org)[|ChainOf(rows, org)| - 1] == rows[i]
  {
    var n := |rows| - 1;
    if i < n {
      assert rows[i + 1..][n - i - 1] == rows[n];
      assert rows[..n][i + 1..] == rows[i + 1..][..n - i - 1];
      LastOfChain(rows[..n], org, i);
    }
  }

  lemma HashFollows(rows: seq<Row>, org: Option<Text>)
    ensures Follows(Some(LastHash(ChainOf(rows, org))), rows, org)
  {
    if NoneOf(rows, org) {
      NoneInChain(rows, org);
    }
    forall i: nat | IsLastOf(rows, org, i)
      ensures |ChainOf(rows, org)| > 0 && ChainOf(rows, org)[|ChainOf(rows, org)| - 1] == rows[i]
    {
      LastOfChain(rows, org, i);
    }
  }

  /** A call adds one row at the end, which records it, follows the last row of its organisation and is
      hashed as stored; the rows before it are untouched. A failed one adds nothing. */
  lemma AppendRecords(eh: EntryHasher, t: Table, c: Call)
    requires ReadsBack(c) && Respects(eh)
    ensures c.fails ==> Append(eh, t, c) == t
    ensures !c.fails ==>
              var u := Append(eh, t, c);
              && |u.rows| == |t.rows| + 1 && u.rows[..|t.rows|] == t.rows && u.nextId == t.nextId + 1
              && var r := u.rows[|t.rows|];
                 && r.id == t.nextId && Records(r, c) && Follows(r.prev, t.rows, c.org)
                 && r.prev.Some? && r.entry == Some(eh(r.prev.value, r.fields))
  {
    HashFollows(t.rows, c.org);
    if !c.fails {
      NewRowChecks(eh, t.rows, t.nextId, c);
    }
  }

  /** The calls that did not fail. */
  function Successes(calls: seq<Call>): seq<Call> {
    if |calls| == 0 then [] else (if calls[0].fails then [] else [calls[0]]) + Successes(calls[1..])
  }

  /** From index k on the rows record these calls, one by one. */
  ghost predicate RecordsFrom(rows: seq<Row>, k: nat, calls: seq<Call>) {
    |rows| == k + |calls| && forall i :: 0 <= i < |calls| ==> Records(rows[k + i], calls[i])
  }

  lemma OneRecordedFirst(rows: seq<Row>, k: nat, c: Call, calls: seq<Call>)
    requires RecordsFrom(rows, k + 1, calls) && Records(rows[k], c)
    ensures RecordsFrom(rows, k, [c] + calls)
  {
    forall i | 0 <= i < |calls| + 1
      ensures Records(rows[k + i], ([c] + calls)[i])
    {
      assert i > 0 ==> Records(rows[k + 1 + (i - 1)], calls[i - 1]);
    }
  }

  /** The log is exactly what was said, in order: one row for every call that did not fail. */
  lemma {:induction false} LogHoldsCalls(eh: EntryHasher, t: Table, calls: seq<Call>)
    requires Respects(eh) && forall c :: c in calls ==> ReadsBack(c)
    ensures RecordsFrom(Appends(eh, t, calls).rows, |t.rows|, Successes(calls))
    ensures Appends(eh, t, calls).rows[..|t.rows|] == t.rows
    decreases |calls|
  {
    if |calls| > 0 {
      var next, u := Append(eh, t, calls[0]), Appends(eh, t, calls);
      assert calls[0] in calls;
      AppendRecords(eh, t, calls[0]);
      LogHoldsCalls(eh, next, calls[1..]);
      assert u.rows[..|t.rows|] == u.rows[..|next.rows|][..|t.rows|];
      if !calls[0].fails {
        assert u.rows[|t.rows|] == u.rows[..|next.rows|][|t.rows|];
        OneRecordedFirst(u.rows, |t.rows|, calls[0], Successes(calls[1..]));
      }
    }
  }

  // ---------------------------------------------------------------- the paged verifier

  /** SELECT ... WHERE id > after ORDER BY id LIMIT limit, on one chain. */
  function PageAfter(chain: seq<Row>, after: Option<nat>, limit: nat): (page: seq<Row>)
    ensures |page| <= limit
  {
    if |chain| == 0 || limit == 0 then []
    else if after.Some? && chain[0].id <= after.value then PageAfter(chain[1..], after, limit)
    else [chain[0]] + PageAfter(chain[1..], after, limit - 1)
  }

  lemma {:induction false} PageFrom(chain: seq<Row>, k: nat, after: Option<nat>, limit: nat)
    requires Increasing(chain) && k <= |chain| && after == (if k == 0 then None else Some(chain[k - 1].id))
    ensures PageAfter(chain, after, limit) == chain[k..if k + limit < |chain| then k + limit else |chain|]
    decreases |chain|
  {
    var end := if k + limit < |chain| then k + limit else |chain|;
    if |chain| == 0 || limit == 0 {
      assert chain[k..end] == [];
    } else if k == 0 {
      PageAll(chain, after, limit);
    } else {
      assert chain[0].id <= chain[k - 1].id;
      assert chain[1..][k - 1..end - 1] == chain[k..end];
      if k > 1 {
        PageFrom(chain[1..], k - 1, after, limit);
      } else {
        PageAll(chain[1..], after, limit);
      }
    }
  }

  lemma {:induction false} PageAll(chain: seq<Row>, after: Option<nat>, limit: nat)
    requires after.Some? ==> forall i :: 0 <= i < |chain| ==> chain[i].id > after.value
    ensures PageAfter(chain, after, limit) == chain[..if limit < |chain| then limit else |chain|]
  {
    if |chain| > 0 && limit > 0 {
      PageAll(chain[1..], after, limit - 1);
    }
  }

  /** What the verifier needs of a page: it is the next part of the chain, short only at its end. */
  lemma NextPage(chain: seq<Row>, k: nat, after: Option<nat>, limit: nat)
    requires Increasing(chain) && k <= |chain| && after == (if k == 0 then None else Some(chain[k - 1].id))
    ensures var page := PageAfter(chain, after, limit);
            k + |page| <= |chain| && page == chain[k..k + |page|] && (|page| < limit ==> k + |page| == |chain|)
            && (|page| > 0 ==> page[|page| - 1] == chain[k + |page| - 1])
  {
    PageFrom(chain, k, after, limit);
  }

  class Log {
    var rows: seq<Row>
    var nextId: nat

    ghost function Abs(): Table
      reads this
    {
      Table(rows, nextId)
    }

    constructor ()
      ensures Abs() == Table([], 1)
    {
      rows, nextId := [], 1;
    }

    /** One transaction under the organisation's lock; a failed insert is swallowed. */
    method Audit(eh: EntryHasher, c: Call)
      modifies this
      ensures Abs() == Append(eh, old(Abs()), c)
      ensures c.fails ==> rows == old(rows)
      ensures !c.fails ==> |rows| == |old(rows)| + 1 && rows[..|old(rows)|] == old(rows)
      ensures !c.fails && ReadsBack(c) ==> Records(rows[|old(rows)|], c)
    {
      var canonical := Canon(c.metadata);
      var chain := ChainOf(rows, c.org);
      var prev := Genesis();
      if |chain| > 0 && chain[|chain| - 1].entry.Some? {
        prev := chain[|chain| - 1].entry.value;
      }
      var entry := eh(prev, FieldsOf(c, canonical));
      if !c.fails {
        rows, nextId := rows + [Row(nextId, FieldsOf(c, c.stored), Some(prev), Some(entry))], nextId + 1;
      }
    }

    /** The verdict of one pass over the organisation's rows, for every page size. */
    method VerifyAuditChain(eh: EntryHasher, org: Option<Text>, pageSize: nat)
        returns (total: nat, hashed: nat, brokenAtId: Option<nat>, legacyAccepted: nat)
      requires Increasing(rows) && pageSize > 0
      ensures var v := Scan(Links(eh, ChainOf(rows, org)));
              (total, hashed, brokenAtId, legacyAccepted) == (v.total, v.hashed, v.broken, v.legacy)
    {
      var chain := ChainOf(rows, org);
      ChainIncreasing(rows, org);
      ghost var verdicts := Verdicts(eh, chain);
      total, hashed, brokenAtId, legacyAccepted := VerifyPages(eh, chain, pageSize, verdicts);
    }
  }

  /** Page after page, carrying the state of the check from one row to the next. */
  method VerifyPages(eh: EntryHasher, chain: seq<Row>, pageSize: nat, ghost verdicts: seq<Verdict>)
      returns (total: nat, hashed: nat, brokenAtId: Option<nat>, legacyAccepted: nat)
    requires Increasing(chain) && pageSize > 0 && Replays(eh, chain, verdicts) && verdicts[0] == Start()
    ensures var v := verdicts[|chain|];
            (total, hashed, brokenAtId, legacyAccepted) == (v.total, v.hashed, v.broken, v.legacy)
  {
    ghost var k := 0;
    total, hashed, brokenAtId, legacyAccepted := 0, 0, None, 0;
    var expectedPrev, started := Genesis(), false;
    var afterId: Option<nat> := None;
    while true
      invariant k <= |chain| && afterId == if k == 0 then None else Some(chain[k - 1].id)
      invariant Verdict(total, hashed, expectedPrev, started, brokenAtId, legacyAccepted) == verdicts[k]
      decreases |chain| - k
    {
      var page := PageAfter(chain, afterId, pageSize);
      NextPage(chain, k, afterId, pageSize);
      if |page| == 0 {
        break;
      }
      total, hashed, expectedPrev, started, brokenAtId, legacyAccepted :=
        CheckPage(eh, page, total, hashed, expectedPrev, started, brokenAtId, legacyAccepted, chain, verdicts, k);
      k := k + |page|;
      afterId := Some(page[|page| - 1].id);
      if |page| < pageSize {
        break;
      }
    }
  }

  ghost predicate StepAt(eh: EntryHasher, rows: seq<Row>, verdicts: seq<Verdict>, i: nat)
    requires i < |rows| && i + 1 < |verdicts|
  {
    verdicts[i + 1] == Check(verdicts[i], LinkOf(eh, rows[i]))
  }

  /** The verdicts after each row, starting with the one before the first. */
  ghost predicate Replays(eh: EntryHasher, rows: seq<Row>, verdicts: seq<Verdict>) {
    |verdicts| == |rows| + 1 && forall i :: 0 <= i < |rows| ==> StepAt(eh, rows, verdicts, i)
  }

  lemma {:induction false} Verdicts(eh: EntryHasher, chain: seq<Row>) returns (verdicts: seq<Verdict>)
    ensures Replays(eh, chain, verdicts) && verdicts[0] == Start() && verdicts[|chain|] == Scan(Links(eh, chain))
  {
    if |chain| == 0 {
      verdicts := [Start()];
    } else {
      var n := |chain| - 1;
      var before := Verdicts(eh, chain[..n]);
      verdicts := before + [Scan(Links(eh, chain))];
      assert Links(eh, chain)[..n] == Links(eh, chain[..n]);
      forall i | 0 <= i < |chain|
        ensures StepAt(eh, chain, verdicts, i)
      {
        if i < n {
          assert StepAt(eh, chain[..n], before, i);
        }
      }
    }
  }

  /** The rows of one page, which stands at index k of the chain; a broken chain is only counted on. */
  method CheckPage(eh: EntryHasher, page: seq<Row>, total0: nat, hashed0: nat, expectedPrev0: Digest, started0: bool,
                   broken0: Option<nat>, legacy0: nat, ghost chain: seq<Row>, ghost verdicts: seq<Verdict>, ghost k: nat)
      returns (total: nat, hashed: nat, expectedPrev: Digest, started: bool, brokenAtId: Option<nat>, legacy: nat)
    requires Replays(eh, chain, verdicts) && k + |page| <= |chain| && page == chain[k..k + |page|]
    requires Verdict(total0, hashed0, expectedPrev0, started0, broken0, legacy0) == verdicts[k]
    ensures Verdict(total, hashed, expectedPrev, started, brokenAtId, legacy) == verdicts[k + |page|]
  {
    total, hashed, expectedPrev, started, brokenAtId, legacy := total0, hashed0, expectedPrev0, started0, broken0, legacy0;
    var i := 0;
    while i < |page|
      invariant i <= |page|
      invariant Verdict(total, hashed, expectedPrev, started, brokenAtId, legacy) == verdicts[k + i]
    {
      assert StepAt(eh, chain, verdicts, k + i);
      total := total + 1;
      if brokenAtId.None? {
        hashed, expectedPrev, started, brokenAtId, legacy :=
          CheckRow(eh, page[i], total, hashed, expectedPrev, started, legacy);
      }
      i := i + 1;
    }
  }

  /** One row of a chain that is not broken yet, `total` already counting it. */
  method CheckRow(eh: EntryHasher, r: Row, total: nat, hashed0: nat, expectedPrev0: Digest, started0: bool, legacy0: nat)
      returns (hashed: nat, expectedPrev: Digest, started: bool, brokenAtId: Option<nat>, legacy: nat)
    requires total > 0
    ensures Verdict(total, hashed, expectedPrev, started, brokenAtId, legacy)
            == Check(Verdict(total - 1, hashed0, expectedPrev0, started0, None, legacy0), LinkOf(eh, r))
  {
    hashed, expectedPrev, started, brokenAtId, legacy := hashed0, expectedPrev0, started0, None, legacy0;
    if r.entry.None? {
      if started {
        brokenAtId := Some(r.id);
      }
      return;
    }
    hashed := hashed + 1;
    var hashOk, historical := CheckHash(eh, r);
    if historical {
      legacy := legacy + 1;
    }
    var prevOk := if !started then PrevOf(r) == Genesis() else PrevOf(r) == expectedPrev;
    if !prevOk || !hashOk {
      brokenAtId := Some(r.id);
    } else {
      expectedPrev, started := r.entry.value, true;
    }
  }

  /** The hash under the metadata as stored, then under each legacy form. */
  method CheckHash(eh: EntryHasher, r: Row) returns (ok: bool, legacy: bool)
    requires r.entry.Some?
    ensures ok == LinkOf(eh, r).hashOk && legacy == (ok && LinkOf(eh, r).legacy)
  {
    ok, legacy := eh(PrevOf(r), r.fields) == r.entry.value, false;
    if !ok {
      var variants := LegacyVariants(r.fields.action, r.fields.metadata);
      var i := 0;
      while i < |variants|
        invariant i <= |variants|
        invariant forall j :: 0 <= j < i ==> eh(PrevOf(r), r.fields.(metadata := variants[j])) != r.entry.value
      {
        if eh(PrevOf(r), r.fields.(metadata := variants[i])) == r.entry.value {
          return true, true;
        }
        i := i + 1;
      }
    }
  }
}
