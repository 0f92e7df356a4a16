/**
 Refresh tokens (server/src/routes/auth.ts): each refresh swaps the session's token hash in one
 compare-and-swap statement and remembers the last twenty it replaced; presenting one of those again
 revokes the session. Each statement is atomic; any number of refreshes interleave.
 */
module Sessions {
  import opened Prelude

  type SessionId = nat
  type UserId = nat
  type Hash = nat

  const REPLAY_WINDOW: nat := 20
  const MAX_AGE: nat := 90 * 24 * 3600

  /** `replaced` is history: every hash the session has had before, oldest first. */
  datatype Session = Session(
    user: UserId, hash: Hash, superseded: seq<Hash>, revoked: bool, createdAt: nat, expiresAt: nat, replaced: seq<Hash>)

  type Table = map<SessionId, Session>

  datatype State = State(sessions: Table, used: set<Hash>)

  /** `fresh` stands for the hash of the newly drawn token. */
  datatype Event =
    | Login(id: SessionId, user: UserId, hash: Hash, now: nat, expiresAt: nat)
    | Refresh(hash: Hash, drawn: Hash, now: nat, expiresAt: nat, userActive: bool)
    | Logout(id: SessionId)

  predicate IsUsable(s: Session, h: Hash, now: nat) {
    s.hash == h && !s.revoked && s.expiresAt > now && s.createdAt + MAX_AGE > now
  }

  /** The array slice of the statement: positions are counted from 1. */
  function Trimmed(superseded: seq<Hash>, h: Hash): (r: seq<Hash>) {
    var all := superseded + [h];
    var from := if |superseded| - 18 > 1 then |superseded| - 18 else 1;
    all[from - 1..]
  }

  function Rotated(s: Session, drawn: Hash, expiresAt: nat): Session {
    s.(hash := drawn, superseded := Trimmed(s.superseded, s.hash), expiresAt := expiresAt, replaced := s.replaced + [s.hash])
  }

  /** The compare-and-swap, on every row that matches. */
  function Swap(t: Table, h: Hash, drawn: Hash, now: nat, expiresAt: nat): Table {
    map id | id in t :: if IsUsable(t[id], h, now) then Rotated(t[id], drawn, expiresAt) else t[id]
  }

  function RevokeReplayed(t: Table, h: Hash): Table {
    map id | id in t :: if h in t[id].superseded then t[id].(revoked := true) else t[id]
  }

  predicate SomeUsable(t: Table, h: Hash, now: nat) {
    exists id | id in t :: IsUsable(t[id], h, now)
  }

  /** A suspended user's session is revoked right after the swap. */
  function DoRefresh(t: Table, h: Hash, drawn: Hash, now: nat, expiresAt: nat, userActive: bool): Table {
    if !SomeUsable(t, h, now) then RevokeReplayed(t, h)
    else
      map id | id in t ::
        if IsUsable(t[id], h, now) then Rotated(t[id], drawn, expiresAt).(revoked := !userActive) else t[id]
  }

  predicate Succeeds(s: State, e: Event) {
    e.Refresh? && e.drawn !in s.used && SomeUsable(s.sessions, e.hash, e.now) && e.userActive
  }

  /** Token hashes are drawn at random: a drawn hash was never seen before. */
  function Step(s: State, e: Event): State {
    match e
    case Login(id, user, hash, now, expiresAt) =>
      if id in s.sessions || hash in s.used then s
      else State(s.sessions[id := Session(user, hash, [], false, now, expiresAt, [])], s.used + {hash})
    case Refresh(h, drawn, now, expiresAt, userActive) =>
      if drawn in s.used then s
      else State(DoRefresh(s.sessions, h, drawn, now, expiresAt, userActive), s.used + {drawn})
    case Logout(id) => if id in s.sessions then s.(sessions := s.sessions[id := s.sessions[id].(revoked := true)]) else s
  }

  function Run(s: State, es: seq<Event>): State
    decreases |es|
  {
    if |es| == 0 then s else Run(Step(s, es[0]), es[1..])
  }

  const EMPTY: State := State(map[], {})

  // ---------------------------------------------------------------- invariants

  function LastOf(hs: seq<Hash>, n: nat): seq<Hash> {
    if |hs| <= n then hs else hs[|hs| - n..]
  }

  /** The superseded list holds exactly the last min(n, 20) replaced hashes. */
  predicate WindowOk(t: Table) {
    forall id | id in t :: t[id].superseded == LastOf(t[id].replaced, REPLAY_WINDOW)
  }

  predicate Knows(s: Session, h: Hash) {
    s.hash == h || h in s.replaced
  }

  predicate HashesUsed(s: Session, used: set<Hash>) {
    s.hash in used && s.hash !in s.replaced && forall h | h in s.replaced :: h in used
  }

  /** Every hash was drawn for one session only, and is its current one or a replaced one. */
  ghost predicate HashesOk(t: Table, used: set<Hash>) {
    && (forall id :: id in t ==> HashesUsed(t[id], used))
    && (forall a, b, h :: a in t && b in t && Knows(t[a], h) && Knows(t[b], h) ==> a == b)
  }

  lemma TrimKeeps(replaced: seq<Hash>, h: Hash)
    ensures Trimmed(LastOf(replaced, REPLAY_WINDOW), h) == LastOf(replaced + [h], REPLAY_WINDOW)
  {
  }

  lemma StepKeepsWindow(s: State, e: Event)
    requires WindowOk(s.sessions)
    ensures WindowOk(Step(s, e).sessions)
  {
    var t := Step(s, e).sessions;
    forall id | id in t
      ensures t[id].superseded == LastOf(t[id].replaced, REPLAY_WINDOW)
    {
      if id in s.sessions {
        TrimKeeps(s.sessions[id].replaced, s.sessions[id].hash);
      }
    }
  }

  /** What a refresh does to one row: nothing, a revocation, or a rotation to the drawn hash. */
  lemma RefreshRow(s: State, e: Event, id: SessionId)
    requires e.Refresh? && e.drawn !in s.used && id in s.sessions
    ensures var x, y := s.sessions[id], DoRefresh(s.sessions, e.hash, e.drawn, e.now, e.expiresAt, e.userActive)[id];
            && (x.revoked ==> y.revoked)
            && ((x.hash == y.hash && x.replaced == y.replaced && x.superseded == y.superseded)
                || (x.hash == e.hash && y.hash == e.drawn && y.replaced == x.replaced + [x.hash]))
  {
  }

  lemma RefreshKeepsHashes(s: State, e: Event)
    requires HashesOk(s.sessions, s.used) && e.Refresh? && e.drawn !in s.used
    ensures HashesOk(DoRefresh(s.sessions, e.hash, e.drawn, e.now, e.expiresAt, e.userActive), s.used + {e.drawn})
  {
    var t := DoRefresh(s.sessions, e.hash, e.drawn, e.now, e.expiresAt, e.userActive);
    forall id | id in t
      ensures HashesUsed(t[id], s.used + {e.drawn})
      ensures forall h :: Knows(t[id], h) ==> Knows(s.sessions[id], h) || (h == e.drawn && Knows(s.sessions[id], e.hash))
    {
      RefreshRow(s, e, id);
      assert HashesUsed(s.sessions[id], s.used);
    }
    forall a, b, h | a in t && b in t && Knows(t[a], h) && Knows(t[b], h)
      ensures a == b
    {
      assert HashesUsed(s.sessions[a], s.used) && HashesUsed(s.sessions[b], s.used);
      assert h == e.drawn ==> !Knows(s.sessions[a], h) && !Knows(s.sessions[b], h);
      if h == e.drawn {
        assert Knows(s.sessions[a], e.hash) && Knows(s.sessions[b], e.hash);
      } else {
        assert Knows(s.sessions[a], h) && Knows(s.sessions[b], h);
      }
    }
  }

  lemma StepKeepsHashes(s: State, e: Event)
    requires HashesOk(s.sessions, s.used)
    ensures HashesOk(Step(s, e).sessions, Step(s, e).used)
  {
    match e
    case Login(id, user, hash, now, expiresAt) =>
      if id !in s.sessions && hash !in s.used {
        forall x | x in s.sessions
          ensures HashesUsed(s.sessions[x], s.used + {hash}) && !Knows(s.sessions[x], hash)
        {
          assert HashesUsed(s.sessions[x], s.used);
        }
      }
    case Refresh(h, drawn, now, expiresAt, userActive) => if drawn !in s.used { RefreshKeepsHashes(s, e); }
    case Logout(id) =>
      if id in s.sessions {
        var t := s.sessions[id := s.sessions[id].(revoked := true)];
        forall x | x in t
          ensures HashesUsed(t[x], s.used) && forall h :: Knows(t[x], h) <==> Knows(s.sessions[x], h)
        {
          assert HashesUsed(s.sessions[x], s.used);
        }
      }
  }

  ghost predicate Inv(s: State) {
    WindowOk(s.sessions) && HashesOk(s.sessions, s.used)
  }

  lemma {:induction false} RunKeeps(s: State, es: seq<Event>)
    requires Inv(s)
    ensures Inv(Run(s, es))
    decreases |es|
  {
    if |es| > 0 {
      StepKeepsWindow(s, es[0]);
      StepKeepsHashes(s, es[0]);
      RunKeeps(Step(s, es[0]), es[1..]);
    }
  }

  /** Over any run: after n rotations a session remembers exactly the last min(n, 20) hashes replaced. */
  lemma WindowOverRuns(es: seq<Event>, id: SessionId)
    requires id in Run(EMPTY, es).sessions
    ensures var s := Run(EMPTY, es).sessions[id];
            s.superseded == LastOf(s.replaced, REPLAY_WINDOW)
            && |s.superseded| == if |s.replaced| < REPLAY_WINDOW then |s.replaced| else REPLAY_WINDOW
  {
    EmptyOk();
    RunKeeps(EMPTY, es);
  }

  // ---------------------------------------------------------------- one winner

  /** How many refreshes of a run that present h succeed. */
  function Wins(s: State, es: seq<Event>, h: Hash): nat
    decreases |es|
  {
    if |es| == 0 then 0
    else (if Succeeds(s, es[0]) && es[0].hash == h then 1 else 0) + Wins(Step(s, es[0]), es[1..], h)
  }

  /** A hash no session will accept: replaced, or no session's current one though drawn already. */
  ghost predicate Spent(s: State, h: Hash) {
    h in s.used && forall id :: id in s.sessions ==> s.sessions[id].hash != h
  }

  lemma SpentStays(s: State, e: Event, h: Hash)
    requires Spent(s, h)
    ensures Spent(Step(s, e), h)
  {
    if e.Refresh? && e.drawn !in s.used {
      forall id | id in s.sessions
        ensures Step(s, e).sessions[id].hash != h
      {
        RefreshRow(s, e, id);
      }
    }
  }

  lemma WinSpends(s: State, e: Event)
    requires Inv(s) && Succeeds(s, e)
    ensures Spent(Step(s, e), e.hash)
  {
    var t := DoRefresh(s.sessions, e.hash, e.drawn, e.now, e.expiresAt, e.userActive);
    var w :| w in s.sessions && IsUsable(s.sessions[w], e.hash, e.now);
    assert HashesUsed(s.sessions[w], s.used);
    forall id | id in t
      ensures t[id].hash != e.hash
    {
      RefreshRow(s, e, id);
      if s.sessions[id].hash == e.hash {
        assert Knows(s.sessions[id], e.hash) && Knows(s.sessions[w], e.hash);
      }
    }
  }

  lemma {:induction false} SpentNeverWins(s: State, es: seq<Event>, h: Hash)
    requires Spent(s, h)
    ensures Wins(s, es, h) == 0
    decreases |es|
  {
    if |es| > 0 {
      SpentStays(s, es[0], h);
      SpentNeverWins(Step(s, es[0]), es[1..], h);
    }
  }

  /** Of all the refreshes presenting one token, in any run, at most one wins. */
  lemma {:induction false} AtMostOneWins(s: State, es: seq<Event>, h: Hash)
    requires Inv(s)
    ensures Wins(s, es, h) <= 1
    decreases |es|
  {
    if |es| > 0 {
      if Succeeds(s, es[0]) && es[0].hash == h {
        WinSpends(s, es[0]);
        SpentNeverWins(Step(s, es[0]), es[1..], h);
      } else {
        StepKeepsWindow(s, es[0]);
        StepKeepsHashes(s, es[0]);
        AtMostOneWins(Step(s, es[0]), es[1..], h);
      }
    }
  }

  // ---------------------------------------------------------------- replay

  /** Presenting a replaced token revokes its session exactly when it is one of the last twenty, and
      never another session. */
  lemma ReplayRevokesIff(s: State, e: Event, id: SessionId, h: Hash)
    requires Inv(s) && e.Refresh? && e.drawn !in s.used && e.hash == h
    requires id in s.sessions && !s.sessions[id].revoked && h in s.sessions[id].replaced
    ensures Step(s, e).sessions[id].revoked <==> h in LastOf(s.sessions[id].replaced, REPLAY_WINDOW)
    ensures !Succeeds(s, e)
    ensures forall other :: other in s.sessions && other != id ==> Step(s, e).sessions[other] == s.sessions[other]
  {
    assert HashesUsed(s.sessions[id], s.used);
    forall other | other in s.sessions
      ensures s.sessions[other].hash != h && (other != id ==> h !in s.sessions[other].superseded)
    {
      assert Knows(s.sessions[id], h);
      assert s.sessions[other].superseded == LastOf(s.sessions[other].replaced, REPLAY_WINDOW);
      assert h in s.sessions[other].superseded ==> Knows(s.sessions[other], h);
    }
    assert s.sessions[id].superseded == LastOf(s.sessions[id].replaced, REPLAY_WINDOW);
  }

  lemma RevokedStays(s: State, e: Event, id: SessionId)
    requires id in s.sessions && s.sessions[id].revoked
    ensures id in Step(s, e).sessions && Step(s, e).sessions[id].revoked
    ensures Step(s, e).sessions[id].hash == s.sessions[id].hash
  {
  }

  /** Whatever happens later, no refresh of a revoked session succeeds: its token never wins again and
      no other token ever becomes its own. */
  lemma {:induction false} RevokedNeverRefreshed(s: State, es: seq<Event>, id: SessionId)
    requires Inv(s) && id in s.sessions && s.sessions[id].revoked
    ensures Wins(s, es, s.sessions[id].hash) == 0
    ensures id in Run(s, es).sessions && Run(s, es).sessions[id].hash == s.sessions[id].hash
    decreases |es|
  {
    if |es| > 0 {
      RevokedStays(s, es[0], id);
      StepKeepsWindow(s, es[0]);
      StepKeepsHashes(s, es[0]);
      RevokedNeverRefreshed(Step(s, es[0]), es[1..], id);
      var h := s.sessions[id].hash;
      assert Succeeds(s, es[0]) && es[0].hash == h ==> exists w :: w in s.sessions && w != id && Knows(s.sessions[w], h);
      assert Knows(s.sessions[id], h);
    }
  }

  lemma EmptyOk()
    ensures Inv(EMPTY)
  {
  }

  // ---------------------------------------------------------------- what a refresh needs and does

  /** The session a token opens, while it is neither revoked nor expired nor ninety days old. */
  ghost predicate Opens(s: State, id: SessionId, h: Hash, now: nat) {
    id in s.sessions && s.sessions[id].hash == h && !s.sessions[id].revoked
    && now < s.sessions[id].expiresAt && now < s.sessions[id].createdAt + 7776000
  }

  /** Over any run: a refresh succeeds exactly when its token opens a session of an active user. */
  lemma RefreshIff(es: seq<Event>, e: Event)
    requires e.Refresh? && e.drawn !in Run(EMPTY, es).used
    ensures Succeeds(Run(EMPTY, es), e) <==> e.userActive && exists id :: Opens(Run(EMPTY, es), id, e.hash, e.now)
    ensures forall a, b :: Opens(Run(EMPTY, es), a, e.hash, e.now) && Opens(Run(EMPTY, es), b, e.hash, e.now) ==> a == b
  {
    var s := Run(EMPTY, es);
    EmptyOk();
    RunKeeps(EMPTY, es);
    assert forall id :: Opens(s, id, e.hash, e.now) ==> id in s.sessions && Knows(s.sessions[id], e.hash);
    assert forall id :: id in s.sessions && IsUsable(s.sessions[id], e.hash, e.now) ==> Opens(s, id, e.hash, e.now);
  }

  /** Then the session has the drawn token and the new expiry, the old token can only be replayed, and the
      sessions of all others are as they were. A suspended user's session is revoked instead. */
  lemma RefreshDoes(s: State, e: Event, id: SessionId)
    requires Inv(s) && e.Refresh? && e.drawn !in s.used && Opens(s, id, e.hash, e.now)
    ensures var t := Step(s, e).sessions;
            && t.Keys == s.sessions.Keys && (forall x :: x in t && x != id ==> t[x] == s.sessions[x])
            && t[id].hash == e.drawn && t[id].expiresAt == e.expiresAt && t[id].revoked == !e.userActive
            && t[id].user == s.sessions[id].user && t[id].createdAt == s.sessions[id].createdAt
            && t[id].replaced == s.sessions[id].replaced + [e.hash] && e.hash in t[id].superseded
  {
    var x := s.sessions[id];
    assert IsUsable(x, e.hash, e.now);
    forall other | other in s.sessions && other != id
      ensures !IsUsable(s.sessions[other], e.hash, e.now)
    {
      assert Knows(x, e.hash);
      assert s.sessions[other].hash == e.hash ==> Knows(s.sessions[other], e.hash);
    }
    TrimKeeps(x.replaced, x.hash);
    HashKept(x.superseded, x.hash);
  }

  lemma HashKept(superseded: seq<Hash>, h: Hash)
    ensures h in Trimmed(superseded, h)
  {
    assert (superseded + [h])[|superseded|] == h;
    assert Trimmed(superseded, h)[|Trimmed(superseded, h)| - 1] == h;
  }

  /** A login starts a session with the token it drew, at that time; a logout revokes its session only. */
  lemma LoginDoes(s: State, e: Event)
    requires e.Login? && e.id !in s.sessions && e.hash !in s.used
    ensures var t := Step(s, e).sessions;
            && e.id in t && t[e.id].user == e.user && t[e.id].hash == e.hash && t[e.id].createdAt == e.now
            && t[e.id].expiresAt == e.expiresAt && !t[e.id].revoked && t[e.id].replaced == []
            && (forall x :: x != e.id ==> (x in t <==> x in s.sessions) && (x in t ==> t[x] == s.sessions[x]))
  {
  }

  lemma LogoutDoes(s: State, id: SessionId)
    requires id in s.sessions
    ensures var t := Step(s, Logout(id)).sessions;
            && id in t && t[id].revoked && t[id].(revoked := s.sessions[id].revoked) == s.sessions[id]
            && (forall x :: x != id ==> (x in t <==> x in s.sessions) && (x in t ==> t[x] == s.sessions[x]))
  {
  }

  lemma {:induction false} SessionStays(s: State, es: seq<Event>, id: SessionId)
    requires id in s.sessions
    ensures id in Run(s, es).sessions && Run(s, es).sessions[id].createdAt == s.sessions[id].createdAt
    ensures Run(s, es).sessions[id].user == s.sessions[id].user
    decreases |es|
  {
    if |es| > 0 {
      SessionStays(Step(s, es[0]), es[1..], id);
    }
  }

  /** However often it is refreshed, a session ends ninety days after its login: from then on none of its
      tokens is accepted. */
  lemma NinetyDaysAtMost(before: seq<Event>, login: Event, after: seq<Event>, e: Event)
    requires login.Login? && login.id !in Run(EMPTY, before).sessions && login.hash !in Run(EMPTY, before).used
    requires e.Refresh? && e.now >= login.now + 7776000
    requires var t := Run(Step(Run(EMPTY, before), login), after); login.id in t.sessions && Knows(t.sessions[login.id], e.hash)
    ensures !Succeeds(Run(Step(Run(EMPTY, before), login), after), e)
  {
    EmptyOk();
    RunKeeps(EMPTY, before);
    var s := Step(Run(EMPTY, before), login);
    StepKeepsWindow(Run(EMPTY, before), login);
    StepKeepsHashes(Run(EMPTY, before), login);
    RunKeeps(s, after);
    SessionStays(s, after, login.id);
    var t := Run(s, after);
    forall id | id in t.sessions && t.sessions[id].hash == e.hash
      ensures id == login.id
    {
      assert Knows(t.sessions[id], e.hash);
    }
  }

  // ---------------------------------------------------------------- the table, updated in place

  class SessionTable {
    var sessions: Table
    ghost var used: set<Hash>

    ghost function Abs(): State
      reads this
    {
      State(sessions, used)
    }

    constructor ()
      ensures Abs() == EMPTY
    {
      sessions, used := map[], {};
    }

    /** The route: swap; when nothing matched, look for a replay; when the user is suspended, revoke. */
    method RefreshToken(h: Hash, drawn: Hash, now: nat, expiresAt: nat, userActive: bool) returns (ok: bool)
      requires drawn !in used
      modifies this
      ensures Abs() == Step(old(Abs()), Refresh(h, drawn, now, expiresAt, userActive))
      ensures ok <==> Succeeds(old(Abs()), Refresh(h, drawn, now, expiresAt, userActive))
    {
      var updated := set id | id in sessions && IsUsable(sessions[id], h, now);
      sessions := Swap(sessions, h, drawn, now, expiresAt);
      used := used + {drawn};
      assert forall id :: id in old(sessions) && IsUsable(old(sessions)[id], h, now) ==> id in updated;
      if updated == {} {
        assert sessions == old(sessions);
        sessions := RevokeReplayed(sessions, h);
        return false;
      }
      assert forall id :: id in updated ==> IsUsable(old(sessions)[id], h, now);
      if !userActive {
        sessions := map id | id in sessions :: if id in updated then sessions[id].(revoked := true) else sessions[id];
        return false;
      }
      return true;
    }
  }
}
