/**
 The lockout and the single use of second-factor codes (server/src/lib/second-factor.ts). Attempts of
 several requests interleave: each is reserved in one statement, checked in another and, when it
 succeeds, resets the counter in a third.
 */
module SecondFactor {
  import opened Prelude

  const MFA_MAX_FAILURES: nat := 5
  const MFA_LOCK_SECONDS: nat := 900

  type Hash = string

  /** The columns of `users` and the backup codes not used yet. Times are in seconds. */
  datatype Account = Account(count: nat, lockedUntil: Option<int>, lastStep: Option<int>, unused: set<Hash>)

  /** What a submitted code is: the TOTP step it matches, if any, and its hash as a backup code. */
  datatype Code = Code(step: Option<int>, hash: Hash)

  // ---------------------------------------------------------------- the statements

  predicate Expired(a: Account, now: int) {
    a.lockedUntil.Some? && a.lockedUntil.value <= now
  }

  predicate MayReserve(a: Account, now: int) {
    a.lockedUntil.None? || Expired(a, now)
  }

  function Reserve(a: Account, now: int): Account {
    if !MayReserve(a, now) then a
    else
      var count := if Expired(a, now) then 1 else a.count + 1;
      a.(count := count,
         lockedUntil := if count >= MFA_MAX_FAILURES then Some(now + MFA_LOCK_SECONDS)
                        else if Expired(a, now) then None else a.lockedUntil)
  }

  function Reset(a: Account): Account {
    a.(count := 0, lockedUntil := None)
  }

  /** A code that matches a step never falls back on backup codes, even when the step was used. */
  function Check(a: Account, c: Code): (bool, Account) {
    if c.step.Some? then
      if a.lastStep.None? || a.lastStep.value < c.step.value then (true, a.(lastStep := c.step)) else (false, a)
    else if c.hash in a.unused then (true, a.(unused := a.unused - {c.hash}))
    else (false, a)
  }

  // ---------------------------------------------------------------- the counter

  /** The counter stays within bounds, and the lock is set exactly when it is full. */
  predicate CounterOk(a: Account) {
    a.count <= MFA_MAX_FAILURES && (a.lockedUntil.Some? <==> a.count == MFA_MAX_FAILURES)
  }

  datatype Event = Reserved(now: int) | Checked(code: Code) | WasReset

  function Step(a: Account, e: Event): Account {
    match e
    case Reserved(now) => Reserve(a, now)
    case Checked(code) => Check(a, code).1
    case WasReset => Reset(a)
  }

  function Run(a: Account, es: seq<Event>): Account
    decreases |es|
  {
    if |es| == 0 then a else Run(Step(a, es[0]), es[1..])
  }

  lemma {:induction false} CounterHolds(a: Account, es: seq<Event>)
    requires CounterOk(a)
    ensures CounterOk(Run(a, es))
    decreases |es|
  {
    if |es| > 0 {
      CounterHolds(Step(a, es[0]), es[1..]);
    }
  }

  // ---------------------------------------------------------------- the rate of attempts

  /** The times of the attempts let through, in a run without success. */
  function LetThrough(a: Account, es: seq<Event>): (ts: seq<int>)
    decreases |es|
  {
    if |es| == 0 then []
    else (if es[0].Reserved? && MayReserve(a, es[0].now) then [es[0].now] else []) + LetThrough(Step(a, es[0]), es[1..])
  }

  predicate TimesAscend(es: seq<Event>) {
    forall i, j | 0 <= i < j < |es| && es[i].Reserved? && es[j].Reserved? :: es[i].now <= es[j].now
  }

  predicate Ascending(ts: seq<int>) {
    forall i, j | 0 <= i < j < |ts| :: ts[i] <= ts[j]
  }

  /** Any six attempts let through in a row span at least the time of a lock. */
  predicate Spaced(ts: seq<int>) {
    forall i, j | 0 <= i < |ts| && j == i + 5 && j < |ts| :: ts[j] >= ts[i] + MFA_LOCK_SECONDS
  }

  /** How many more attempts fit before the lock. */
  function Left(a: Account): nat
    requires CounterOk(a)
  {
    MFA_MAX_FAILURES - a.count
  }

  /** A locked account waits for its lock; otherwise the attempt after the last one left waits for the
      lock that one sets. */
  predicate Waits(a: Account, ts: seq<int>)
    requires CounterOk(a)
  {
    && (a.lockedUntil.Some? && |ts| > 0 ==> ts[0] >= a.lockedUntil.value)
    && (a.lockedUntil.None? && Left(a) < |ts| ==> forall i | 0 <= i < Left(a) :: ts[Left(a)] >= ts[i] + MFA_LOCK_SECONDS)
  }

  predicate NotBefore(es: seq<Event>, from: int) {
    forall i | 0 <= i < |es| && es[i].Reserved? :: from <= es[i].now
  }

  predicate AllFrom(ts: seq<int>, from: int) {
    forall i | 0 <= i < |ts| :: from <= ts[i]
  }

  lemma OneMoreAscends(now: int, ts: seq<int>)
    requires Ascending(ts) && AllFrom(ts, now)
    ensures Ascending([now] + ts)
  {
  }

  /** The fifth attempt after this one waits for a lock set meanwhile. */
  lemma FifthWaits(a: Account, now: int, ts: seq<int>)
    requires CounterOk(a) && MayReserve(a, now) && CounterOk(Reserve(a, now)) && Waits(Reserve(a, now), ts)
    requires Ascending(ts) && AllFrom(ts, now)
    ensures |ts| > 4 ==> ts[4] >= now + MFA_LOCK_SECONDS
  {
    var b := Reserve(a, now);
    if |ts| > 4 && b.lockedUntil.None? {
      assert ts[Left(b)] >= ts[0] + MFA_LOCK_SECONDS;
    }
  }

  lemma OneMoreSpaced(now: int, ts: seq<int>)
    requires Spaced(ts) && (|ts| > 4 ==> ts[4] >= now + MFA_LOCK_SECONDS)
    ensures Spaced([now] + ts)
  {
    var all := [now] + ts;
    forall i, j | 0 <= i < |all| && j == i + 5 && j < |all|
      ensures all[j] >= all[i] + MFA_LOCK_SECONDS
    {
      if i > 0 {
        assert ts[j - 1] >= ts[i - 1] + MFA_LOCK_SECONDS;
      }
    }
  }

  lemma OneMoreWaits(a: Account, now: int, ts: seq<int>)
    requires CounterOk(a) && MayReserve(a, now) && CounterOk(Reserve(a, now)) && Waits(Reserve(a, now), ts)
    requires AllFrom(ts, now)
    ensures Waits(a, [now] + ts)
  {
    var b := Reserve(a, now);
    var all := [now] + ts;
    if a.lockedUntil.None? && Left(a) < |all| {
      assert all[Left(a)] == ts[Left(a) - 1];
      forall i | 0 <= i < Left(a)
        ensures all[Left(a)] >= all[i] + MFA_LOCK_SECONDS
      {
        if i > 0 {
          assert ts[Left(b)] >= ts[i - 1] + MFA_LOCK_SECONDS;
        } else if b.lockedUntil.None? {
          assert ts[Left(b)] >= ts[0] + MFA_LOCK_SECONDS;
        }
      }
    }
  }

  lemma TailTimes(es: seq<Event>, from: int)
    requires |es| > 0 && TimesAscend(es) && WasReset !in es && NotBefore(es, from)
    ensures TimesAscend(es[1..]) && WasReset !in es[1..] && NotBefore(es[1..], from) && es[0] != WasReset
    ensures es[0].Reserved? ==> from <= es[0].now && NotBefore(es[1..], es[0].now)
  {
    forall i | 0 <= i < |es[1..]| && es[1..][i].Reserved? && es[0].Reserved?
      ensures es[0].now <= es[1..][i].now
    {
      assert es[1..][i] == es[i + 1];
    }
  }

  /** The times let through from an account, all from `from` on. */
  predicate WellTimed(a: Account, ts: seq<int>, from: int) {
    CounterOk(a) && Ascending(ts) && Spaced(ts) && Waits(a, ts) && AllFrom(ts, from)
  }

  lemma SameTimed(a: Account, b: Account, ts: seq<int>, from: int)
    requires WellTimed(b, ts, from) && a.count == b.count && a.lockedUntil == b.lockedUntil
    ensures WellTimed(a, ts, from)
  {
  }

  lemma FirstThrough(a: Account, now: int, ts: seq<int>, from: int)
    requires CounterOk(a) && MayReserve(a, now) && WellTimed(Reserve(a, now), ts, now) && from <= now
    ensures WellTimed(a, [now] + ts, from)
  {
    OneMoreAscends(now, ts);
    FifthWaits(a, now, ts);
    OneMoreSpaced(now, ts);
    OneMoreWaits(a, now, ts);
  }

  lemma StepCounter(a: Account, e: Event)
    requires CounterOk(a)
    ensures CounterOk(Step(a, e))
    ensures e.Checked? ==> Step(a, e).count == a.count && Step(a, e).lockedUntil == a.lockedUntil
  {
  }

  lemma {:induction false} ThroughSpaced(a: Account, es: seq<Event>, from: int)
    requires CounterOk(a) && TimesAscend(es) && WasReset !in es && NotBefore(es, from)
    ensures WellTimed(a, LetThrough(a, es), from)
    decreases |es|
  {
    if |es| > 0 {
      var b := Step(a, es[0]);
      StepCounter(a, es[0]);
      TailTimes(es, from);
      if es[0].Reserved? && MayReserve(a, es[0].now) {
        var now := es[0].now;
        ThroughSpaced(b, es[1..], now);
        FirstThrough(a, now, LetThrough(b, es[1..]), from);
      } else {
        ThroughSpaced(b, es[1..], from);
        NothingLetThrough(a, es);
        SameTimed(a, b, LetThrough(b, es[1..]), from);
      }
    }
  }

  lemma NothingLetThrough(a: Account, es: seq<Event>)
    requires |es| > 0 && !(es[0].Reserved? && MayReserve(a, es[0].now))
    ensures LetThrough(a, es) == LetThrough(Step(a, es[0]), es[1..])
    ensures es[0] != WasReset ==> Step(a, es[0]).count == a.count && Step(a, es[0]).lockedUntil == a.lockedUntil
  {
  }

  lemma {:induction false} SpanGrows(ts: seq<int>, i: nat, k: nat)
    requires Spaced(ts) && i + 5 * k < |ts|
    ensures ts[i + 5 * k] >= ts[i] + MFA_LOCK_SECONDS * k
    decreases k
  {
    if k > 0 {
      SpanGrows(ts, i, k - 1);
      var m := i + 5 * (k - 1);
      assert ts[m + 5] >= ts[m] + MFA_LOCK_SECONDS;
    }
  }

  lemma LongSpan(ts: seq<int>, i: nat, j: nat, k: nat)
    requires Ascending(ts) && Spaced(ts) && i + 5 * k <= j < |ts|
    ensures ts[j] - ts[i] >= MFA_LOCK_SECONDS * k
  {
    SpanGrows(ts, i, k);
    assert i + 5 * k < j ==> ts[i + 5 * k] <= ts[j];
  }

  /** In a run without success, whatever the requests, at most 5 * (W / 900 + 1) attempts are let
      through within any W seconds. */
  lemma AttemptsBounded(a: Account, es: seq<Event>, w: nat, i: nat, j: nat)
    requires CounterOk(a) && TimesAscend(es) && WasReset !in es
    requires var ts := LetThrough(a, es); i <= j < |ts| && ts[j] - ts[i] <= w
    ensures j - i + 1 <= MFA_MAX_FAILURES * (w / MFA_LOCK_SECONDS + 1)
  {
    var ts := LetThrough(a, es);
    var from := LeastTime(es);
    ThroughSpaced(a, es, from);
    var k := w / MFA_LOCK_SECONDS + 1;
    if i + 5 * k <= j {
      LongSpan(ts, i, j, k);
    }
  }

  lemma {:induction false} LeastTime(es: seq<Event>) returns (from: int)
    ensures NotBefore(es, from)
  {
    if |es| == 0 {
      from := 0;
    } else {
      from := LeastTime(es[..|es| - 1]);
      if es[|es| - 1].Reserved? && es[|es| - 1].now < from {
        from := es[|es| - 1].now;
      }
    }
  }

  // ---------------------------------------------------------------- single use

  datatype Token = Totp(step: int) | Backup(hash: Hash)

  function TokenOf(c: Code): Token {
    if c.step.Some? then Totp(c.step.value) else Backup(c.hash)
  }

  /** The tokens accepted over a run. */
  function AcceptedTokens(a: Account, es: seq<Event>): (ts: seq<Token>)
    decreases |es|
  {
    if |es| == 0 then []
    else (if es[0].Checked? && Check(a, es[0].code).0 then [TokenOf(es[0].code)] else []) + AcceptedTokens(Step(a, es[0]), es[1..])
  }

  predicate StillGood(a: Account, t: Token) {
    match t
    case Totp(step) => a.lastStep.None? || a.lastStep.value < step
    case Backup(hash) => hash in a.unused
  }

  lemma {:induction false} AcceptedStillGood(a: Account, es: seq<Event>, t: Token)
    requires t in AcceptedTokens(a, es)
    ensures StillGood(a, t)
    decreases |es|
  {
    if |es| > 0 && t in AcceptedTokens(Step(a, es[0]), es[1..]) {
      AcceptedStillGood(Step(a, es[0]), es[1..], t);
    }
  }

  predicate NoRepeat(ts: seq<Token>) {
    forall i, j | 0 <= i < j < |ts| :: ts[i] != ts[j]
  }

  /** Over any run each TOTP step and each backup code is accepted at most once. */
  lemma {:induction false} AcceptedOnce(a: Account, es: seq<Event>)
    ensures NoRepeat(AcceptedTokens(a, es))
    decreases |es|
  {
    if |es| > 0 {
      var b := Step(a, es[0]);
      var rest := AcceptedTokens(b, es[1..]);
      AcceptedOnce(b, es[1..]);
      if es[0].Checked? && Check(a, es[0].code).0 {
        var t := TokenOf(es[0].code);
        assert !StillGood(b, t);
        assert t !in rest by {
          if t in rest {
            AcceptedStillGood(b, es[1..], t);
          }
        }
        OneMoreOnce(t, rest);
        assert AcceptedTokens(a, es) == [t] + rest;
      } else {
        assert AcceptedTokens(a, es) == rest;
      }
    }
  }

  lemma OneMoreOnce(t: Token, rest: seq<Token>)
    requires NoRepeat(rest) && t !in rest
    ensures NoRepeat([t] + rest)
  {
  }

  // ---------------------------------------------------------------- which codes are good

  /** A code is accepted exactly when its token is still good. Then a backup code is burnt and no other
      token is; a step burns itself and the steps before it, and no backup code. A refused one burns nothing. */
  lemma CheckBurns(a: Account, c: Code, t: Token)
    ensures Check(a, c).0 <==> StillGood(a, TokenOf(c))
    ensures !Check(a, c).0 ==> Check(a, c).1 == a
    ensures Check(a, c).0 ==>
              (StillGood(Check(a, c).1, t) <==>
                StillGood(a, t) && t != TokenOf(c) && !(t.Totp? && c.step.Some? && t.step < c.step.value))
    ensures Check(a, c).1.count == a.count && Check(a, c).1.lockedUntil == a.lockedUntil
  {
  }

  /** No later step than t was accepted, nor t itself. */
  predicate NotOvertaken(t: Token, accepted: seq<Token>) {
    t !in accepted && (t.Totp? ==> forall x | x in accepted && x.Totp? :: x.step < t.step)
  }

  lemma OneMoreOvertakes(t: Token, first: Token, rest: seq<Token>)
    ensures NotOvertaken(t, [first] + rest) <==> NotOvertaken(t, [first]) && NotOvertaken(t, rest)
  {
    assert forall x :: x in [first] + rest <==> x in [first] || x in rest;
  }

  /** Over any run: a token that was good is good after it exactly when the run accepted neither it nor, for
      a step, a later one. So each unused backup code works once, whatever else is submitted. */
  lemma {:induction false} GoodUntilUsed(a: Account, es: seq<Event>, t: Token)
    ensures StillGood(Run(a, es), t) <==> StillGood(a, t) && NotOvertaken(t, AcceptedTokens(a, es))
    decreases |es|
  {
    if |es| > 0 {
      var b, rest := Step(a, es[0]), AcceptedTokens(Step(a, es[0]), es[1..]);
      GoodUntilUsed(b, es[1..], t);
      if es[0].Checked? && Check(a, es[0].code).0 {
        CheckBurns(a, es[0].code, t);
        OneMoreOvertakes(t, TokenOf(es[0].code), rest);
        assert AcceptedTokens(a, es) == [TokenOf(es[0].code)] + rest;
      } else {
        assert AcceptedTokens(a, es) == rest;
      }
    }
  }

  // ---------------------------------------------------------------- exactly five attempts

  function ReservedTimes(es: seq<Event>): (ts: seq<int>) {
    if |es| == 0 then [] else (if es[0].Reserved? then [es[0].now] else []) + ReservedTimes(es[1..])
  }

  /** From an unlocked account every attempt is let through until five are counted, without a success; the
      fifth locks the account until 900 seconds after it. */
  lemma {:induction false} AttemptsLeft(a: Account, es: seq<Event>)
    requires CounterOk(a) && a.lockedUntil.None? && WasReset !in es && a.count + |ReservedTimes(es)| <= MFA_MAX_FAILURES
    ensures LetThrough(a, es) == ReservedTimes(es) && Run(a, es).count == a.count + |ReservedTimes(es)|
    ensures Run(a, es).lockedUntil == if Run(a, es).count == MFA_MAX_FAILURES
                                      then Some(ReservedTimes(es)[|ReservedTimes(es)| - 1] + 900) else None
    decreases |es|
  {
    if |es| > 0 {
      var b, rest := Step(a, es[0]), es[1..];
      assert es[0] in es;
      StepCounter(a, es[0]);
      OneMoreTime(es);
      if es[0].Reserved? {
        if b.lockedUntil.Some? {
          OnlyChecks(b, rest);
        } else {
          AttemptsLeft(b, rest);
        }
        FirstLetThrough(a, es);
      } else {
        AttemptsLeft(b, rest);
        NothingLetThrough(a, es);
      }
    }
  }

  lemma OneMoreTime(es: seq<Event>)
    requires |es| > 0
    ensures ReservedTimes(es) == if es[0].Reserved? then [es[0].now] + ReservedTimes(es[1..]) else ReservedTimes(es[1..])
  {
  }

  lemma FirstLetThrough(a: Account, es: seq<Event>)
    requires |es| > 0 && es[0].Reserved? && MayReserve(a, es[0].now)
    ensures LetThrough(a, es) == [es[0].now] + LetThrough(Step(a, es[0]), es[1..])
  {
  }

  lemma {:induction false} OnlyChecks(a: Account, es: seq<Event>)
    requires WasReset !in es && ReservedTimes(es) == []
    ensures LetThrough(a, es) == [] && Run(a, es).count == a.count && Run(a, es).lockedUntil == a.lockedUntil
    decreases |es|
  {
    if |es| > 0 {
      assert es[0] in es && !es[0].Reserved?;
      OnlyChecks(Step(a, es[0]), es[1..]);
    }
  }

  /** After five attempts without success the next one is let through exactly from 900 seconds after the
      fifth on; it then counts as the first of five more. */
  lemma LockedThenRearmed(a: Account, es: seq<Event>, now: int)
    requires CounterOk(a) && a.lockedUntil.None? && WasReset !in es && a.count + |ReservedTimes(es)| == MFA_MAX_FAILURES
    ensures |ReservedTimes(es)| > 0
    ensures MayReserve(Run(a, es), now) <==> now >= ReservedTimes(es)[|ReservedTimes(es)| - 1] + 900
    ensures MayReserve(Run(a, es), now) ==>
              Reserve(Run(a, es), now).count == 1 && Reserve(Run(a, es), now).lockedUntil.None?
  {
    AttemptsLeft(a, es);
  }

  // ---------------------------------------------------------------- the account, updated in place

  class User {
    var count: nat
    var lockedUntil: Option<int>
    var lastStep: Option<int>
    var unused: set<Hash>

    ghost function Abs(): Account
      reads this
    {
      Account(count, lockedUntil, lastStep, unused)
    }

    constructor (codes: set<Hash>)
      ensures Abs() == Account(0, None, None, codes) && CounterOk(Abs())
    {
      count, lockedUntil, lastStep, unused := 0, None, None, codes;
    }

    /** None when the account is locked, which no code then opens. */
    method ReserveAttempt(now: int) returns (r: Option<(nat, bool)>)
      modifies this`count, this`lockedUntil
      ensures Abs() == Reserve(old(Abs()), now)
      ensures r == if MayReserve(old(Abs()), now) then Some((count, lockedUntil.Some?)) else None
    {
      if lockedUntil.Some? && lockedUntil.value > now {
        return None;
      }
      var rearmed := lockedUntil.Some?;
      count := if rearmed then 1 else count + 1;
      if count >= MFA_MAX_FAILURES {
        lockedUntil := Some(now + MFA_LOCK_SECONDS);
      } else if rearmed {
        lockedUntil := None;
      }
      return Some((count, lockedUntil.Some?));
    }

    method ResetAttempts()
      modifies this`count, this`lockedUntil
      ensures Abs() == Reset(old(Abs()))
    {
      count, lockedUntil := 0, None;
    }

    method CheckCode(c: Code) returns (ok: bool)
      modifies this`lastStep, this`unused
      ensures (ok, Abs()) == Check(old(Abs()), c)
    {
      if c.step.Some? {
        if lastStep.None? || lastStep.value < c.step.value {
          lastStep := c.step;
          return true;
        }
        return false;
      }
      if c.hash in unused {
        unused := unused - {c.hash};
        return true;
      }
      return false;
    }

    /** One request alone: locked out, refused, or accepted with the counter back to zero. */
    method VerifySecondFactor(c: Code, now: int) returns (r: Result<bool, ()>)
      requires CounterOk(Abs())
      modifies this
      ensures CounterOk(Abs())
      ensures r.Err? <==> !MayReserve(old(Abs()), now)
      ensures r.Err? ==> Abs() == old(Abs())
      ensures r.Ok? ==> r.value == Check(old(Abs()), c).0
      ensures r == Ok(true) ==> count == 0 && lockedUntil.None?
      ensures r == Ok(false) ==> count == (if old(lockedUntil).Some? then 1 else old(count) + 1)
      ensures r == Ok(false) ==> lockedUntil == if count == MFA_MAX_FAILURES then Some(now + 900) else None
      ensures r.Ok? ==> lastStep == (if r.value && c.step.Some? then c.step else old(lastStep))
      ensures r.Ok? ==> unused == (if r.value && c.step.None? then old(unused) - {c.hash} else old(unused))
    {
      var attempt := ReserveAttempt(now);
      if attempt.None? {
        return Err(());
      }
      var ok := CheckCode(c);
      if ok {
        ResetAttempts();
      }
      return Ok(ok);
    }
  }

  /** matchTotpStep: the first step of the window whose code is the one submitted. */
  method MatchTotpStep(hotp: int -> string, code: string, window: nat, counter: int) returns (found: Option<int>)
    ensures found.Some? ==>
              && counter - window <= found.value <= counter + window && hotp(found.value) == code
              && forall s :: counter - window <= s < found.value ==> hotp(s) != code
    ensures found.None? ==> forall s :: counter - window <= s <= counter + window ==> hotp(s) != code
  {
    found := None;
    var w := 0 - window;
    while w <= window
      invariant 0 - window <= w <= window + 1
      invariant found.Some? ==>
                  && counter - window <= found.value < counter + w && hotp(found.value) == code
                  && forall s :: counter - window <= s < found.value ==> hotp(s) != code
      invariant found.None? ==> forall s :: counter - window <= s < counter + w ==> hotp(s) != code
      decreases window - w
    {
      if hotp(counter + w) == code && found.None? {
        found := Some(counter + w);
      }
      w := w + 1;
    }
  }
}
