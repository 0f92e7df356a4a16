/**
 The tamper-evident audit log (server/src/lib/audit-chain.ts, server/src/lib/audit.ts): what an entry
 hash binds, what the verifier accepts, and what the last hash says about the whole history.
 */
module AuditChain {
  import opened Prelude
  import opened Json
  import opened Canonical
  import opened HashChain

  type Hash = Text -> Digest

  /** The hash as the chain relies on it: no collision, and never the root. */
  ghost predicate Ideal(h: Hash) {
    && (forall t: Text :: h(t) != Genesis())
    && (forall a: Text, b: Text :: h(a) == h(b) ==> a == b)
  }

  datatype Fields = Fields(
    org: Option<Text>, actor: Option<Text>, action: Text, resourceType: Text, resource: Option<Text>,
    metadata: Json, ip: Text, createdAt: Text)

  datatype Row = Row(id: nat, fields: Fields, prev: Option<Digest>, entry: Option<Digest>)

  // ---------------------------------------------------------------- the entry hash

  function Hex(d: Digest): (t: Text)
    ensures |t| == 2 * |d|
  {
    if |d| == 0 then [] else [HexDigit(d[0] / 16), HexDigit(d[0] % 16)] + Hex(d[1..])
  }

  lemma {:induction false} HexInjective(a: Digest, b: Digest)
    requires Hex(a) == Hex(b)
    ensures a == b
  {
    if |a| > 0 {
      var x, y := Hex(a), Hex(b);
      assert |b| == |a|;
      assert x[0] == HexDigit(a[0] / 16) && x[1] == HexDigit(a[0] % 16);
      assert y[0] == HexDigit(b[0] / 16) && y[1] == HexDigit(b[0] % 16);
      HexOne(a[0] / 16);
      HexOne(b[0] / 16);
      HexOne(a[0] % 16);
      HexOne(b[0] % 16);
      assert x[2..] == Hex(a[1..]) && y[2..] == Hex(b[1..]);
      HexInjective(a[1..], b[1..]);
      assert a == [a[0]] + a[1..] && b == [b[0]] + b[1..];
    }
  }

  function OrEmpty(t: Option<Text>): Text {
    if t.Some? then t.value else []
  }

  function Payload(prev: Digest, f: Fields): seq<Text> {
    [Hex(prev), OrEmpty(f.org), OrEmpty(f.actor), f.action, f.resourceType, OrEmpty(f.resource),
     Stable(CanonJson(f.metadata)), f.ip, f.createdAt]
  }

  /** What computes an entry hash from the one before and the fields. */
  type EntryHasher = (Digest, Fields) -> Digest

  function AuditEntryHash(h: Hash): EntryHasher {
    (prev: Digest, f: Fields) => h(StringifyStrings(Payload(prev, f)))
  }

  /** The same entry, up to null or "" on the ids, key order in the metadata, and null or {} for none. */
  predicate SameEntry(f: Fields, g: Fields) {
    && OrEmpty(f.org) == OrEmpty(g.org) && OrEmpty(f.actor) == OrEmpty(g.actor) && f.action == g.action
    && f.resourceType == g.resourceType && OrEmpty(f.resource) == OrEmpty(g.resource)
    && MeaningOf(CanonJson(f.metadata)) == MeaningOf(CanonJson(g.metadata))
    && f.ip == g.ip && f.createdAt == g.createdAt
  }

  lemma PayloadBinds(p: Digest, f: Fields, q: Digest, g: Fields)
    requires WellFormed(f.metadata) && WellFormed(g.metadata)
    ensures Payload(p, f) == Payload(q, g) <==> p == q && SameEntry(f, g)
  {
    StableIff(CanonJson(f.metadata), CanonJson(g.metadata));
    var a, b := Payload(p, f), Payload(q, g);
    if a == b {
      assert a[0] == b[0] && a[1] == b[1] && a[2] == b[2] && a[3] == b[3] && a[4] == b[4];
      assert a[5] == b[5] && a[6] == b[6] && a[7] == b[7] && a[8] == b[8];
      HexInjective(p, q);
    }
  }

  /** An entry hash depends on nothing else than the previous hash and the entry. */
  ghost predicate Respects(eh: EntryHasher) {
    forall p: Digest, f: Fields, g: Fields ::
      WellFormed(f.metadata) && WellFormed(g.metadata) && SameEntry(f, g) ==> eh(p, f) == eh(p, g)
  }

  /** And it binds them all: it determines the previous hash and the entry, and is not the root. */
  ghost predicate Binds(eh: EntryHasher) {
    && (forall p: Digest, f: Fields :: eh(p, f) != Genesis())
    && forall p: Digest, f: Fields, q: Digest, g: Fields ::
         WellFormed(f.metadata) && WellFormed(g.metadata) && eh(p, f) == eh(q, g) ==> p == q && SameEntry(f, g)
  }

  lemma EntryHashRespects(h: Hash)
    ensures Respects(AuditEntryHash(h))
  {
    forall p: Digest, f: Fields, g: Fields | WellFormed(f.metadata) && WellFormed(g.metadata) && SameEntry(f, g)
      ensures AuditEntryHash(h)(p, f) == AuditEntryHash(h)(p, g)
    {
      PayloadBinds(p, f, p, g);
    }
  }

  /** An entry hash over an ideal hash binds the previous hash and every field. */
  lemma EntryHashBinds(h: Hash)
    requires Ideal(h)
    ensures Binds(AuditEntryHash(h))
  {
    var eh := AuditEntryHash(h);
    forall p: Digest, f: Fields
      ensures eh(p, f) != Genesis()
    {
      assert eh(p, f) == h(StringifyStrings(Payload(p, f)));
    }
    forall p: Digest, f: Fields, q: Digest, g: Fields |
      WellFormed(f.metadata) && WellFormed(g.metadata) && eh(p, f) == eh(q, g)
      ensures p == q && SameEntry(f, g)
    {
      StringifyStringsInjective(Payload(p, f), Payload(q, g));
      PayloadBinds(p, f, q, g);
    }
  }

  // ---------------------------------------------------------------- an ideal hash exists

  function Spread(t: Text): (d: Digest)
    ensures |d| == 2 * |t|
  {
    if |t| == 0 then [] else [t[0] / 256, t[0] % 256] + Spread(t[1..])
  }

  lemma {:induction false} SpreadInjective(a: Text, b: Text)
    requires Spread(a) == Spread(b)
    ensures a == b
  {
    if |a| > 0 {
      var x, y := Spread(a), Spread(b);
      assert |b| == |a|;
      assert x[0] == a[0] / 256 && x[1] == a[0] % 256 && y[0] == b[0] / 256 && y[1] == b[0] % 256;
      assert x[2..] == Spread(a[1..]) && y[2..] == Spread(b[1..]);
      SpreadInjective(a[1..], b[1..]);
      assert a == [a[0]] + a[1..] && b == [b[0]] + b[1..];
    }
  }

  /** The assumption made on the hash is one that some function meets. */
  lemma IdealExists()
    ensures exists h: Hash :: Ideal(h)
  {
    var h: Hash := (t: Text) => [1] + Spread(t);
    forall a: Text, b: Text | h(a) == h(b)
      ensures a == b
    {
      assert h(a)[1..] == Spread(a) && h(b)[1..] == Spread(b);
      SpreadInjective(a, b);
    }
    forall t: Text
      ensures h(t) != Genesis()
    {
      assert h(t)[0] == 1 && Genesis()[0] == 0;
    }
    assert Ideal(h);
  }

  // ---------------------------------------------------------------- legacy variants

  const SIGN_SUBMIT: Text := Ascii("node.sign.submit")
  const PASSWORD_RESET: Text := Ascii("site.user.password_reset")
  const SIGNER_FPR: Text := Ascii("signerFpr")
  const EXPIRES_AT: Text := Ascii("expiresAt")

  function LegacyVariants(action: Text, metadata: Json): (vs: seq<Json>)
    ensures |vs| <= 1
  {
    if !metadata.Obj? then []
    else
      var ks := Keys(metadata.members);
      if action == SIGN_SUBMIT && SIGNER_FPR !in ks then [Obj(metadata.members + [Member(SIGNER_FPR, Null)])]
      else if action == PASSWORD_RESET && EXPIRES_AT in ks && Field(metadata.members, EXPIRES_AT).Str? then
        [Obj(metadata.members[IndexOf(metadata.members, EXPIRES_AT) := Member(EXPIRES_AT, Obj([]))])]
      else []
  }

  lemma VariantsWellFormed(action: Text, metadata: Json)
    requires WellFormed(metadata)
    ensures forall v :: v in LegacyVariants(action, metadata) ==> WellFormed(v)
  {
    if metadata.Obj? && SIGNER_FPR !in Keys(metadata.members) {
      var ms := metadata.members;
      forall i | 0 <= i < |ms|
        ensures ms[i].key != SIGNER_FPR
      {
        assert Keys(ms)[i] in Keys(ms);
      }
    }
  }

  /** What the hash covered before metadata was made canonical: undefined as null, a date as {}. */
  function Old(v: Js): Json
    decreases v
  {
    match v
    case Date(_) => Obj([])
    case JsArray(items) => Arr(seq(|items|, i requires 0 <= i < |items| => Old(items[i])))
    case JsObject(props) => Obj(seq(|props|, i requires 0 <= i < |props| => Member(props[i].key, Old(props[i].value))))
    case _ => if ToJson(v).Gives? then ToJson(v).json else Null
  }

  lemma {:induction false} OldClean(j: Json)
    ensures Old(Embed(j)) == j
    decreases j
  {
    match j
    case Arr(items) =>
      forall i | 0 <= i < |items| ensures Old(Embed(items[i])) == items[i] { OldClean(items[i]); }
      assert Old(Embed(j)).items == items;
    case Obj(members) =>
      forall i | 0 <= i < |members| ensures Old(Embed(members[i].value)) == members[i].value { OldClean(members[i].value); }
      assert Old(Embed(j)).members == members;
    case _ =>
  }

  /** An old entry of the first kind, with an undefined fingerprint, is stored without it, and its
      variant is what was hashed. */
  lemma LegacySignature(members: seq<Member>)
    requires SIGNER_FPR !in Keys(members)
    ensures var written := JsObject(Embed(Obj(members)).props + [Prop(SIGNER_FPR, Undefined)]);
            Canon(written) == Obj(members) && LegacyVariants(SIGN_SUBMIT, Canon(written)) == [Old(written)]
  {
    var props := Embed(Obj(members)).props;
    var written := JsObject(props + [Prop(SIGNER_FPR, Undefined)]);
    OldClean(Obj(members));
    assert Old(written).members == members + [Member(SIGNER_FPR, Null)];
    UndefinedDropped(members, SIGNER_FPR);
  }

  lemma UndefinedDropped(members: seq<Member>, key: Text)
    ensures Canon(JsObject(Embed(Obj(members)).props + [Prop(key, Undefined)])) == Obj(members)
  {
    var props := Embed(Obj(members)).props;
    var all := props + [Prop(key, Undefined)];
    var outs := Outcomes(all);
    forall i | 0 <= i < |members|
      ensures outs[i] == Gives(members[i].value)
    {
      JsonRoundTrip(members[i].value);
    }
    AllPresent(props, outs[..|members|], members);
    assert all[..|members|] == props;
    assert Present(all, outs) == members;
  }

  // ---------------------------------------------------------------- the verifier, in one pass

  function PrevOf(r: Row): Digest {
    if r.prev.Some? then r.prev.value else Genesis()
  }

  /** The metadata under which a hashed row checks, if any: its own first, then a legacy variant. */
  function HashedMetadata(eh: EntryHasher, r: Row): (m: Option<Json>)
    requires r.entry.Some?
    ensures m.Some? ==> eh(PrevOf(r), r.fields.(metadata := m.value)) == r.entry.value
    ensures m.Some? ==> m.value == r.fields.metadata || m.value in LegacyVariants(r.fields.action, r.fields.metadata)
  {
    var vs := LegacyVariants(r.fields.action, r.fields.metadata);
    if eh(PrevOf(r), r.fields) == r.entry.value then
      assert r.fields.(metadata := r.fields.metadata) == r.fields;
      Some(r.fields.metadata)
    else if |vs| == 1 && eh(PrevOf(r), r.fields.(metadata := vs[0])) == r.entry.value then Some(vs[0])
    else None
  }

  predicate Direct(eh: EntryHasher, r: Row)
    requires r.entry.Some?
  {
    eh(PrevOf(r), r.fields) == r.entry.value
  }

  predicate StoredIsHashed(eh: EntryHasher, r: Row) {
    r.entry.Some? && Direct(eh, r)
  }

  function LinkOf(eh: EntryHasher, r: Row): Link {
    Link(r.id, PrevOf(r), r.entry, r.entry.Some? && HashedMetadata(eh, r).Some?, !StoredIsHashed(eh, r))
  }

  function Links(eh: EntryHasher, rows: seq<Row>): (ls: seq<Link>)
    ensures |ls| == |rows| && forall i :: 0 <= i < |rows| ==> ls[i] == LinkOf(eh, rows[i])
  {
    seq(|rows|, i requires 0 <= i < |rows| => LinkOf(eh, rows[i]))
  }

  // ---------------------------------------------------------------- the last hash

  predicate RowsWellFormed(rows: seq<Row>) {
    forall i | 0 <= i < |rows| :: WellFormed(rows[i].fields.metadata)
  }

  /** The entries as they were hashed agree, for every field. */
  predicate SameHashed(eh: EntryHasher, a: Row, b: Row) {
    && a.entry.Some? && a.entry == b.entry && PrevOf(a) == PrevOf(b)
    && HashedMetadata(eh, a).Some? && HashedMetadata(eh, b).Some?
    && SameEntry(a.fields.(metadata := HashedMetadata(eh, a).value), b.fields.(metadata := HashedMetadata(eh, b).value))
  }

  lemma HashedWellFormed(eh: EntryHasher, r: Row)
    requires r.entry.Some? && HashedMetadata(eh, r).Some? && WellFormed(r.fields.metadata)
    ensures WellFormed(HashedMetadata(eh, r).value)
  {
    VariantsWellFormed(r.fields.action, r.fields.metadata);
  }

  lemma RowsAgree(eh: EntryHasher, a: Row, b: Row)
    requires Binds(eh) && a.entry.Some? && a.entry == b.entry
    requires HashedMetadata(eh, a).Some? && HashedMetadata(eh, b).Some?
    requires WellFormed(a.fields.metadata) && WellFormed(b.fields.metadata)
    ensures SameHashed(eh, a, b)
  {
    HashedWellFormed(eh, a);
    HashedWellFormed(eh, b);
    assert eh(PrevOf(a), a.fields.(metadata := HashedMetadata(eh, a).value))
        == eh(PrevOf(b), b.fields.(metadata := HashedMetadata(eh, b).value));
  }

  /** Under an ideal hash a recomputed entry hash tells what was hashed, and is not the root. */
  lemma IdealBinds(eh: EntryHasher, a: seq<Row>, b: seq<Row>)
    requires Binds(eh) && RowsWellFormed(a) && RowsWellFormed(b)
    ensures Binding(Links(eh, a), Links(eh, b))
  {
    var x, y := Links(eh, a), Links(eh, b);
    forall i, j | 0 <= i < |a| && 0 <= j < |b| && x[i].hashOk && y[j].hashOk && x[i].entry.Some? && x[i].entry == y[j].entry
      ensures x[i].prev == y[j].prev
    {
      RowsAgree(eh, a[i], b[j]);
    }
  }

  /** The chained rows, back to the last one without a hash. */
  function ChainedRows(eh: EntryHasher, rows: seq<Row>): (t: seq<Row>) {
    rows[TailStart(Links(eh, rows))..]
  }

  lemma ChainedRowAt(eh: EntryHasher, rows: seq<Row>, i: nat)
    requires Accepted(Links(eh, rows)) && i < |ChainedRows(eh, rows)|
    ensures LinkOf(eh, ChainedRows(eh, rows)[i]).hashOk
    ensures Hashes(Tail(Links(eh, rows)))[i] == ChainedRows(eh, rows)[i].entry
    ensures WellFormed(ChainedRows(eh, rows)[i].fields.metadata) || !RowsWellFormed(rows)
  {
    TailIsOk(Links(eh, rows), i);
    HashAt(Tail(Links(eh, rows)), i);
    assert ChainedRows(eh, rows)[i] == rows[TailStart(Links(eh, rows)) + i];
  }

  lemma HistoryMatches(eh: EntryHasher, a: seq<Row>, b: seq<Row>)
    requires Binds(eh) && RowsWellFormed(a) && RowsWellFormed(b) && Accepted(Links(eh, a)) && Accepted(Links(eh, b))
    requires |a| > 0 && |b| > 0 && a[|a| - 1].entry.Some? && a[|a| - 1].entry == b[|b| - 1].entry
    ensures Hashes(Tail(Links(eh, a))) == Hashes(Tail(Links(eh, b)))
    ensures |ChainedRows(eh, a)| == |ChainedRows(eh, b)|
  {
    IdealBinds(eh, a, b);
    TailsMatch(Links(eh, a), Links(eh, b));
    assert |Tail(Links(eh, a))| == |Tail(Links(eh, b))|;
  }

  /** The last hash determines the history: two accepted tables that end in the same entry hash have
      the same number of chained rows, and these agree one by one, as they were hashed. */
  lemma LastHashDeterminesHistory(eh: EntryHasher, a: seq<Row>, b: seq<Row>)
    requires Binds(eh) && RowsWellFormed(a) && RowsWellFormed(b) && Accepted(Links(eh, a)) && Accepted(Links(eh, b))
    requires |a| > 0 && |b| > 0 && a[|a| - 1].entry.Some? && a[|a| - 1].entry == b[|b| - 1].entry
    ensures |ChainedRows(eh, a)| == |ChainedRows(eh, b)|
    ensures forall i :: 0 <= i < |ChainedRows(eh, a)| ==> SameHashed(eh, ChainedRows(eh, a)[i], ChainedRows(eh, b)[i])
  {
    HistoryMatches(eh, a, b);
    forall i | 0 <= i < |ChainedRows(eh, a)|
      ensures SameHashed(eh, ChainedRows(eh, a)[i], ChainedRows(eh, b)[i])
    {
      ChainedRowAt(eh, a, i);
      ChainedRowAt(eh, b, i);
      MatchingRows(eh, ChainedRows(eh, a)[i], ChainedRows(eh, b)[i]);
    }
  }

  lemma MatchingRows(eh: EntryHasher, a: Row, b: Row)
    requires Binds(eh) && WellFormed(a.fields.metadata) && WellFormed(b.fields.metadata)
    requires LinkOf(eh, a).hashOk && LinkOf(eh, b).hashOk && a.entry == b.entry
    ensures SameHashed(eh, a, b)
  {
    RowsAgree(eh, a, b);
  }

  lemma LinkLegacy(eh: EntryHasher, r: Row)
    ensures LinkOf(eh, r).legacy <==> !StoredIsHashed(eh, r)
  {
  }

  /** No legacy acceptance is counted exactly when every chained row was hashed as it is stored. */
  lemma NoLegacyIsDirect(eh: EntryHasher, rows: seq<Row>)
    requires Accepted(Links(eh, rows))
    ensures Scan(Links(eh, rows)).legacy == 0
       <==> forall i :: 0 <= i < |ChainedRows(eh, rows)| ==> StoredIsHashed(eh, ChainedRows(eh, rows)[i])
  {
    var links, chained := Links(eh, rows), ChainedRows(eh, rows);
    var k := TailStart(links);
    LegacyCounts(links);
    forall i | 0 <= i < |chained|
      ensures StoredIsHashed(eh, chained[i]) <==> !links[k + i].legacy
    {
      LinkLegacy(eh, rows[k + i]);
    }
    if forall i :: 0 <= i < |chained| ==> StoredIsHashed(eh, chained[i]) {
      forall j | k <= j < |links|
        ensures !links[j].legacy
      {
        assert StoredIsHashed(eh, chained[j - k]);
      }
    }
  }

  /** And when neither verdict counts a legacy acceptance, the stored entries themselves agree. */
  lemma LastHashDeterminesExactly(eh: EntryHasher, a: seq<Row>, b: seq<Row>)
    requires Binds(eh) && RowsWellFormed(a) && RowsWellFormed(b) && Accepted(Links(eh, a)) && Accepted(Links(eh, b))
    requires |a| > 0 && |b| > 0 && a[|a| - 1].entry.Some? && a[|a| - 1].entry == b[|b| - 1].entry
    requires Scan(Links(eh, a)).legacy == 0 && Scan(Links(eh, b)).legacy == 0
    ensures |ChainedRows(eh, a)| == |ChainedRows(eh, b)|
    ensures forall i :: 0 <= i < |ChainedRows(eh, a)| ==> SameEntry(ChainedRows(eh, a)[i].fields, ChainedRows(eh, b)[i].fields)
  {
    LastHashDeterminesHistory(eh, a, b);
    NoLegacyIsDirect(eh, a);
    NoLegacyIsDirect(eh, b);
    forall i | 0 <= i < |ChainedRows(eh, a)|
      ensures SameEntry(ChainedRows(eh, a)[i].fields, ChainedRows(eh, b)[i].fields)
    {
      DirectRows(eh, ChainedRows(eh, a)[i], ChainedRows(eh, b)[i]);
    }
  }

  lemma DirectRows(eh: EntryHasher, a: Row, b: Row)
    requires SameHashed(eh, a, b) && StoredIsHashed(eh, a) && StoredIsHashed(eh, b)
    ensures SameEntry(a.fields, b.fields)
  {
    assert a.fields.(metadata := a.fields.metadata) == a.fields && b.fields.(metadata := b.fields.metadata) == b.fields;
  }

  /** Tamper evidence: with an ideal hash, a table that verifies and ends in the entry hash of another
      that verifies, neither through legacy forms, has the same entries. */
  lemma TamperEvident(h: Hash, a: seq<Row>, b: seq<Row>)
    requires Ideal(h) && RowsWellFormed(a) && RowsWellFormed(b)
    requires var x, y := Scan(Links(AuditEntryHash(h), a)), Scan(Links(AuditEntryHash(h), b));
             x.broken.None? && y.broken.None? && x.legacy == 0 && y.legacy == 0
    requires |a| > 0 && |b| > 0 && a[|a| - 1].entry.Some? && a[|a| - 1].entry == b[|b| - 1].entry
    ensures var c, d := ChainedRows(AuditEntryHash(h), a), ChainedRows(AuditEntryHash(h), b);
            |c| == |d| && forall i :: 0 <= i < |c| ==> SameEntry(c[i].fields, d[i].fields)
  {
    EntryHashBinds(h);
    LastHashDeterminesExactly(AuditEntryHash(h), a, b);
  }
}
