/**
 The two headers a content write must carry (server/src/lib/content-preconditions.ts), and those a
 download gives (server/src/routes/nodes.ts).
 */
module Headers {
  import opened Prelude
  import opened Decimal

  /** A header as Node gives it: absent, one value, or several. */
  datatype Header = Absent | One(text: string) | Many

  datatype HeaderError = ClientOutdated | PreconditionRequired | BadVersion | BadEpoch

  datatype Base = Base(version: Option<string>, epoch: nat, legacy: bool)

  const MAX_SAFE_INTEGER: nat := 0x1F_FFFF_FFFF_FFFF

  predicate IsLowerHex(c: char) {
    IsDigit(c) || 'a' <= c <= 'f'
  }

  predicate IsDash(i: nat) {
    i == 8 || i == 13 || i == 18 || i == 23
  }

  /** 8-4-4-4-12 hexadecimal digits, in either case. */
  predicate IsUuid(s: string) {
    |s| == 36 && forall i | 0 <= i < 36 :: if IsDash(i) then s[i] == '-' else IsLowerHex(LowerChar(s[i]))
  }

  predicate IsEpoch(s: string) {
    |s| > 0 && AllDigits(s) && s[0] != '0' && Value(s) <= MAX_SAFE_INTEGER
  }

  function ContentPreconditions(version: Header, epoch: Header, legacyCompat: bool): (r: Result<Base, HeaderError>) {
    if version.Absent? && epoch.Absent? then
      if legacyCompat then Ok(Base(None, 0, true)) else Err(ClientOutdated)
    else if version.Absent? || epoch.Absent? then Err(PreconditionRequired)
    else if !(version.One? && (version.text == "null" || IsUuid(version.text))) then Err(BadVersion)
    else if !(epoch.One? && IsEpoch(epoch.text)) then Err(BadEpoch)
    else Ok(Base(if version.text == "null" then None else Some(Lower(version.text)), Value(epoch.text), false))
  }

  /** x-content-version-id and x-key-epoch of a download. */
  function DownloadHeaders(version: Option<string>, epoch: nat): (Header, Header) {
    (One(if version.Some? then version.value else "null"), One(Numeral(epoch)))
  }

  lemma {:induction false} NumeralStarts(n: nat)
    requires n > 0
    ensures Numeral(n)[0] != '0'
  {
    if n >= 10 {
      NumeralStarts(n / 10);
      assert Numeral(n)[0] == Numeral(n / 10)[0];
    }
  }

  /** A writer that sends back what its download said names exactly that version and epoch. */
  lemma DownloadRoundTrip(version: Option<string>, epoch: nat, legacyCompat: bool)
    requires version.Some? ==> IsUuid(version.value) && Lower(version.value) == version.value
    requires 0 < epoch <= MAX_SAFE_INTEGER
    ensures var (v, e) := DownloadHeaders(version, epoch);
            ContentPreconditions(v, e, legacyCompat) == Ok(Base(version, epoch, false))
  {
    NumeralStarts(epoch);
    NumeralRoundTrip(epoch);
    if version.Some? {
      assert |version.value| == 36;
    }
  }

  lemma {:induction false} ValuePositive(s: string)
    requires |s| > 0 && AllDigits(s) && s[0] != '0'
    ensures Value(s) > 0
  {
    if |s| > 1 {
      ValuePositive(s[..|s| - 1]);
    } else {
      assert DigitValue(s[0]) > 0;
    }
  }

  /** An accepted base is a positive safe epoch with no version or a lower-case identifier, and in strict
      mode it is never a guess: both headers were there. */
  lemma AcceptedBase(version: Header, epoch: Header, legacyCompat: bool)
    ensures var r := ContentPreconditions(version, epoch, legacyCompat);
            r.Ok? && !r.value.legacy ==>
              && version.One? && epoch.One? && 0 < r.value.epoch <= MAX_SAFE_INTEGER
              && (r.value.version.Some? ==> IsUuid(r.value.version.value) && Lower(r.value.version.value) == r.value.version.value)
    ensures var r := ContentPreconditions(version, epoch, legacyCompat);
            r.Ok? && r.value.legacy <==> legacyCompat && version.Absent? && epoch.Absent?
  {
    if epoch.One? && IsEpoch(epoch.text) {
      ValuePositive(epoch.text);
    }
  }
}
