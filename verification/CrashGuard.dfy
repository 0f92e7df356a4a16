/**
 The launcher's guard against crash loops (installer/updater.py): which exe a starting launcher hands
 over to, how failed starts are counted, and how it falls back. The small JSON files and the bin
 directory are the state; every file operation is taken to succeed.
 */
module CrashGuard {
  import opened Prelude
  import opened VersionOrder

  type VersionText = string

  /** The signed manifest kept beside an exe, if its signature verifies. */
  datatype Sidecar = Sidecar(version: VersionText, sha256: string)

  /** An exe file, by the digest of its content. */
  datatype Exe = Exe(digest: string, sidecar: Option<Sidecar>)

  datatype Boot = Boot(version: VersionText, attempts: nat, ok: bool)

  datatype State = State(
    bin: map<VersionText, Exe>, pending: Option<VersionText>, boot: Option<Boot>,
    lastGood: Option<VersionText>, quarantine: seq<VersionText>)

  const MAX_BOOT_ATTEMPTS: nat := 3
  const QUARANTINE_SIZE: nat := 20

  // ---------------------------------------------------------------- the functions of the guard

  predicate Verifies(bin: map<VersionText, Exe>, v: VersionText) {
    && v in bin && bin[v].sidecar.Some? && bin[v].sidecar.value.version == v
    && bin[v].sidecar.value.sha256 != "" && bin[v].sidecar.value.sha256 == bin[v].digest
  }

  /** _verified_exe: an exe that is not what its signed manifest says is deleted. */
  function AfterVerify(s: State, v: VersionText): State {
    if v in s.bin && s.bin[v].sidecar.Some? && s.bin[v].sidecar.value.version == v && !Verifies(s.bin, v)
    then s.(bin := s.bin - {v}) else s
  }

  predicate Eligible(s: State, v: Option<VersionText>, current: VersionText) {
    v.Some? && v.value != "" && IsNewer(v.value, current) && v.value !in s.quarantine
  }

  function VerifiedPending(s: State, current: VersionText): (Option<VersionText>, State) {
    if !Eligible(s, s.pending, current) then (None, s)
    else (if Verifies(s.bin, s.pending.value) then s.pending else None, AfterVerify(s, s.pending.value))
  }

  function RestoreLastGood(s: State, current: VersionText): (Option<VersionText>, State) {
    if !Eligible(s, s.lastGood, current) then (None, s)
    else if Verifies(s.bin, s.lastGood.value) then (s.lastGood, s.(pending := s.lastGood))
    else (None, AfterVerify(s, s.lastGood.value))
  }

  function BootOf(s: State, v: VersionText): Boot {
    if s.boot.Some? && s.boot.value.version == v then s.boot.value else Boot(v, 0, false)
  }

  function Quarantined(q: seq<VersionText>, v: VersionText): (r: seq<VersionText>)
    ensures v in r || (v in q && |q| > QUARANTINE_SIZE)
  {
    var bad := if v in q then q else q + [v];
    assert v !in q ==> bad[|bad| - 1] == v;
    if |bad| <= QUARANTINE_SIZE then bad else bad[|bad| - QUARANTINE_SIZE..]
  }

  function FallbackToBase(s: State, v: VersionText, current: VersionText): State {
    RestoreLastGood(s.(quarantine := Quarantined(s.quarantine, v), pending := None, bin := s.bin - {v}), current).1
  }

  function MayHandoff(s: State, v: VersionText, current: VersionText): (bool, State) {
    var boot := BootOf(s, v);
    if boot.ok then (true, s)
    else if boot.attempts >= MAX_BOOT_ATTEMPTS then (false, FallbackToBase(s, v, current))
    else (true, s.(boot := Some(boot.(attempts := boot.attempts + 1))))
  }

  /** run_pending_handoff: the version to start, if any. */
  function Handoff(s: State, current: VersionText): (Option<VersionText>, State) {
    var (pending, s1) := VerifiedPending(s, current);
    var (exe, s2) := if pending.Some? then (pending, s1) else RestoreLastGood(s1, current);
    if exe.None? then (None, s2)
    else
      var (may, s3) := MayHandoff(s2, exe.value, current);
      if may then (exe, s3) else SecondChance(s3, current)
  }

  function SecondChance(s: State, current: VersionText): (Option<VersionText>, State) {
    var (exe, s1) := RestoreLastGood(s, current);
    if exe.None? then (None, s1)
    else
      var (may, s2) := MayHandoff(s1, exe.value, current);
      (if may then exe else None, s2)
  }

  /** relaunch_pending_exe */
  function Relaunch(s: State, current: VersionText): (Option<VersionText>, State) {
    var (pending, s1) := VerifiedPending(s, current);
    if pending.None? then (None, s1)
    else
      var (may, s2) := MayHandoff(s1, pending.value, current);
      (if may then pending else None, s2)
  }

  predicate RecordsOk(s: State, current: VersionText) {
    s.boot.Some? && s.boot.value.version == current && !(s.boot.value.ok && s.boot.value.attempts == 0)
  }

  /** mark_boot_ok, before pruning. */
  function MarkOk(s: State, current: VersionText): State {
    if !RecordsOk(s, current) then s
    else
      var s1 := AfterVerify(s.(boot := Some(Boot(current, 0, true))), current);
      if Verifies(s1.bin, current) then s1.(lastGood := Some(current)) else s1
  }

  type Order = (VersionText, VersionText) -> bool

  /** A directory listing of bin, in any order. */
  predicate Lists(exes: seq<VersionText>, bin: map<VersionText, Exe>) {
    (forall v | v in exes :: v in bin) && (forall v | v in bin :: v in exes)
  }

  function InsertNewest(newer: Order, v: VersionText, order: seq<VersionText>): seq<VersionText> {
    if |order| == 0 then [v]
    else if !newer(order[0], v) then [v] + order
    else [order[0]] + InsertNewest(newer, v, order[1..])
  }

  /** sorted(exes, key=version_key, reverse=True) */
  function NewestFirst(newer: Order, exes: seq<VersionText>): seq<VersionText> {
    if |exes| == 0 then [] else InsertNewest(newer, exes[0], NewestFirst(newer, exes[1..]))
  }

  function Keep(s: State, exes: seq<VersionText>): seq<VersionText> {
    var order := NewestFirst(Newer(), exes);
    (if |order| <= 2 then order else order[..2]) + if s.lastGood.Some? then [s.lastGood.value] else []
  }

  /** _prune_old_exe(2): the two newest and the last good one stay. */
  function Prune(s: State, exes: seq<VersionText>): State {
    s.(bin := map v | v in s.bin && v in Keep(s, exes) :: s.bin[v])
  }

  /** apply_exe_update, once the artefact and its manifest are stored; pruning follows. */
  function InstallExe(s: State, v: VersionText, digest: string): State {
    s.(bin := s.bin[v := Exe(digest, Some(Sidecar(v, digest)))], pending := Some(v), boot := Some(Boot(v, 0, false)))
  }

  // ---------------------------------------------------------------- what is launched

  /** From any state of the files, tampered with or not: what is launched verifies against its signed
      manifest, is strictly newer than the launcher that runs it, and is not quarantined. */
  lemma LaunchedIsVerified(s: State, current: VersionText)
    ensures var (v, t) := Handoff(s, current);
            v.Some? ==> Verifies(t.bin, v.value) && IsNewer(v.value, current) && v.value !in t.quarantine
    ensures var (v, t) := Relaunch(s, current);
            v.Some? ==> Verifies(t.bin, v.value) && IsNewer(v.value, current) && v.value !in t.quarantine
  {
    var (pending, s1) := VerifiedPending(s, current);
    var (exe, s2) := if pending.Some? then (pending, s1) else RestoreLastGood(s1, current);
    if exe.Some? {
      assert Verifies(s2.bin, exe.value) && IsNewer(exe.value, current) && exe.value !in s2.quarantine;
      SecondChanceVerified(MayHandoff(s2, exe.value, current).1, current);
    }
  }

  lemma SecondChanceVerified(s: State, current: VersionText)
    ensures var (v, t) := SecondChance(s, current);
            v.Some? ==> Verifies(t.bin, v.value) && IsNewer(v.value, current) && v.value !in t.quarantine
  {
  }

  // ---------------------------------------------------------------- runs

  datatype Event =
    | Install(version: VersionText, digest: string, exes: seq<VersionText>)
    | InstallFails(version: VersionText)
    | Start(current: VersionText, starts: bool)
    | Restart(current: VersionText, starts: bool)
    | BootOk(current: VersionText, exes: seq<VersionText>)
    | Corrupt(version: VersionText, exe: Option<Exe>)

  /** With the history: versions ever recorded as well started, the last installed one, and how many
      times since then a version never recorded so was launched, and was chosen for launching, whether or
      not its process could be started. */
  datatype World = World(files: State, everOk: set<VersionText>, installed: Option<VersionText>, failed: nat, tried: nat)

  function Pruned(s: State, exes: seq<VersionText>): State {
    if Lists(exes, s.bin) then Prune(s, exes) else s
  }

  function Launch(w: World, e: Event): (Option<VersionText>, State) {
    match e
    case Start(current, starts) => var (v, t) := Handoff(w.files, current); (if starts then v else None, t)
    case Restart(current, starts) => var (v, t) := Relaunch(w.files, current); (if starts then v else None, t)
    case _ => (None, w.files)
  }

  function Next(w: World, e: Event): World {
    match e
    case Install(v, digest, exes) => World(Pruned(InstallExe(w.files, v, digest), exes), w.everOk, Some(v), 0, 0)
    case InstallFails(v) => w.(files := w.files.(bin := w.files.bin - {v}))
    case Start(_, _) => Launched(w, e)
    case Restart(_, _) => Launched(w, e)
    case BootOk(current, exes) =>
      w.(files := Pruned(MarkOk(w.files, current), exes),
         everOk := if RecordsOk(w.files, current) then w.everOk + {current} else w.everOk)
    case Corrupt(v, exe) =>
      w.(files := w.files.(bin := if exe.Some? then w.files.bin[v := exe.value] else w.files.bin - {v}))
  }

  /** The version a start hands over to, if its process can be started. */
  function Chosen(w: World, e: Event): Option<VersionText> {
    match e
    case Start(current, _) => Handoff(w.files, current).0
    case Restart(current, _) => Relaunch(w.files, current).0
    case _ => None
  }

  predicate NeverOk(w: World, v: Option<VersionText>) {
    v.Some? && v.value !in w.everOk
  }

  function Launched(w: World, e: Event): World {
    w.(files := Launch(w, e).1, failed := if NeverOk(w, Launch(w, e).0) then w.failed + 1 else w.failed,
       tried := if NeverOk(w, Chosen(w, e)) then w.tried + 1 else w.tried)
  }

  // ---------------------------------------------------------------- chains of launchers

  /** No function of the guard adds an exe. */
  lemma RestoreAddsNone(s: State, current: VersionText)
    ensures RestoreLastGood(s, current).1.bin.Keys <= s.bin.Keys
  {
  }

  lemma PendingAddsNone(s: State, current: VersionText)
    ensures VerifiedPending(s, current).1.bin.Keys <= s.bin.Keys
  {
  }

  lemma MayAddsNone(s: State, v: VersionText, current: VersionText)
    ensures MayHandoff(s, v, current).1.bin.Keys <= s.bin.Keys
  {
    RestoreAddsNone(s.(quarantine := Quarantined(s.quarantine, v), pending := None, bin := s.bin - {v}), current);
  }

  lemma SecondAddsNone(s: State, current: VersionText)
    ensures SecondChance(s, current).1.bin.Keys <= s.bin.Keys
  {
    RestoreAddsNone(s, current);
    var (exe, s1) := RestoreLastGood(s, current);
    if exe.Some? {
      MayAddsNone(s1, exe.value, current);
    }
  }

  lemma HandoffAddsNone(s: State, current: VersionText)
    ensures Handoff(s, current).1.bin.Keys <= s.bin.Keys
  {
    PendingAddsNone(s, current);
    var (pending, s1) := VerifiedPending(s, current);
    RestoreAddsNone(s1, current);
    var (exe, s2) := if pending.Some? then (pending, s1) else RestoreLastGood(s1, current);
    if exe.Some? {
      MayAddsNone(s2, exe.value, current);
      SecondAddsNone(MayHandoff(s2, exe.value, current).1, current);
    }
  }

  lemma RelaunchAddsNone(s: State, current: VersionText)
    ensures Relaunch(s, current).1.bin.Keys <= s.bin.Keys
  {
    PendingAddsNone(s, current);
    var (pending, s1) := VerifiedPending(s, current);
    if pending.Some? {
      MayAddsNone(s1, pending.value, current);
    }
  }

  /** Neither an install nor a file put there by someone else. */
  predicate AddsNoExe(e: Event) {
    !e.Install? && !(e.Corrupt? && e.exe.Some?)
  }

  lemma NextAddsNone(w: World, e: Event)
    requires AddsNoExe(e)
    ensures Next(w, e).files.bin.Keys <= w.files.bin.Keys
  {
    match e
    case Start(current, _) => HandoffAddsNone(w.files, current);
    case Restart(current, _) => RelaunchAddsNone(w.files, current);
    case _ =>
  }

  /** From the launcher `current`, whatever else happens that adds no exe: every start is asked by the
      launcher started last. */
  predicate ChainRun(w: World, current: VersionText, es: seq<Event>)
    decreases |es|
  {
    |es| == 0
    || (&& AddsNoExe(es[0]) && (es[0].Start? || es[0].Restart? ==> es[0].current == current)
        && ChainRun(Next(w, es[0]), LauncherAfter(w, current, es[0]), es[1..]))
  }

  function LauncherAfter(w: World, current: VersionText, e: Event): VersionText {
    if Launch(w, e).0.Some? then Launch(w, e).0.value else current
  }

  /** The versions launched over a run, in order. */
  function Launches(w: World, es: seq<Event>): (vs: seq<VersionText>)
    decreases |es|
  {
    if |es| == 0 then []
    else (if Launch(w, es[0]).0.Some? then [Launch(w, es[0]).0.value] else []) + Launches(Next(w, es[0]), es[1..])
  }

  predicate NoRepeat(vs: seq<VersionText>) {
    forall i, j | 0 <= i < j < |vs| :: vs[i] != vs[j]
  }

  ghost predicate AllNewer(vs: seq<VersionText>, current: VersionText) {
    forall v :: v in vs ==> IsNewer(v, current)
  }

  lemma OneMoreLaunch(v: VersionText, rest: seq<VersionText>, current: VersionText)
    requires IsNewer(v, current) && AllNewer(rest, v) && NoRepeat(rest)
    ensures AllNewer([v] + rest, current) && NoRepeat([v] + rest)
  {
    forall x | x in rest
      ensures IsNewer(x, current) && x != v
    {
      NewerIsStrictWeakOrder(x, v, current);
    }
  }

  lemma LaunchIsThere(w: World, current: VersionText, e: Event)
    requires AddsNoExe(e) && (e.Start? || e.Restart? ==> e.current == current) && Launch(w, e).0.Some?
    ensures Launch(w, e).0.value in w.files.bin && IsNewer(Launch(w, e).0.value, current)
  {
    LaunchedIsVerified(w.files, current);
    NextAddsNone(w, e);
  }

  /** The exes a run can launch are those there at its start, each newer than the launcher before it. */
  lemma {:induction false} ChainRises(w: World, current: VersionText, es: seq<Event>)
    requires ChainRun(w, current, es)
    ensures AllNewer(Launches(w, es), current) && NoRepeat(Launches(w, es))
    ensures forall v :: v in Launches(w, es) ==> v in w.files.bin
    decreases |es|
  {
    if |es| > 0 {
      NextAddsNone(w, es[0]);
      ChainRises(Next(w, es[0]), LauncherAfter(w, current, es[0]), es[1..]);
      if Launch(w, es[0]).0.Some? {
        LaunchIsThere(w, current, es[0]);
        OneMoreLaunch(Launch(w, es[0]).0.value, Launches(Next(w, es[0]), es[1..]), current);
      } else {
        assert Launches(w, es) == Launches(Next(w, es[0]), es[1..]);
      }
    }
  }

  lemma {:induction false} DistinctFits(vs: seq<VersionText>, exes: set<VersionText>)
    requires NoRepeat(vs) && forall v :: v in vs ==> v in exes
    ensures |vs| <= |exes|
  {
    if |vs| > 0 {
      var n := |vs| - 1;
      DistinctFits(vs[..n], exes - {vs[n]});
    }
  }

  /** A chain of launchers ends: with no new install there are at most as many launches as exes at the
      start, no version is launched twice, and none is the launcher it started from. */
  lemma ChainEnds(w: World, current: VersionText, es: seq<Event>)
    requires ChainRun(w, current, es)
    ensures |Launches(w, es)| <= |w.files.bin| && NoRepeat(Launches(w, es)) && current !in Launches(w, es)
  {
    ChainRises(w, current, es);
    DistinctFits(Launches(w, es), w.files.bin.Keys);
    assert |w.files.bin.Keys| == |w.files.bin|;
    NewerIsStrictWeakOrder(current, current, current);
  }

  // ---------------------------------------------------------------- counting failed starts

  /** What the counter knows of the pending version, when it never started well. */
  predicate PendingCounted(s: State, everOk: set<VersionText>, installed: Option<VersionText>, tried: nat) {
    s.pending.Some? && s.pending.value !in everOk ==>
      s.pending == installed && s.boot.Some? && Some(s.boot.value.version) == installed && s.boot.value.attempts == tried
  }

  predicate FilesOk(s: State, everOk: set<VersionText>) {
    && |s.quarantine| <= QUARANTINE_SIZE
    && (s.lastGood.Some? ==> s.lastGood.value in everOk)
    && (s.boot.Some? ==> s.boot.value.attempts <= MAX_BOOT_ATTEMPTS && (s.boot.value.ok ==> s.boot.value.version in everOk))
  }

  /** A version never recorded as well started can only be pending as the last one installed, and its
      choices since then were all counted. */
  predicate Inv(w: World) {
    && w.failed <= w.tried <= MAX_BOOT_ATTEMPTS && FilesOk(w.files, w.everOk)
    && PendingCounted(w.files, w.everOk, w.installed, w.tried)
  }

  /** Restoring the last good launcher leaves the counters, and can only make it the pending one. */
  lemma RestoreKeeps(s: State, current: VersionText)
    ensures var (v, t) := RestoreLastGood(s, current);
            && t.boot == s.boot && t.lastGood == s.lastGood && t.quarantine == s.quarantine
            && (t.pending == s.pending || t.pending == s.lastGood) && (v.Some? ==> v == s.lastGood && t.pending == v)
  {
  }

  lemma PendingKeeps(s: State, current: VersionText)
    ensures var (v, t) := VerifiedPending(s, current);
            && t.boot == s.boot && t.lastGood == s.lastGood && t.quarantine == s.quarantine && t.pending == s.pending
            && (v.Some? ==> v == s.pending)
  {
  }

  lemma MayKeeps(s: State, v: VersionText, current: VersionText, everOk: set<VersionText>, installed: Option<VersionText>, tried: nat)
    requires FilesOk(s, everOk) && PendingCounted(s, everOk, installed, tried) && s.pending == Some(v)
    ensures var (may, t) := MayHandoff(s, v, current);
            && FilesOk(t, everOk) && PendingCounted(t, everOk, installed, if may && v !in everOk then tried + 1 else tried)
            && (may && v !in everOk ==> tried < MAX_BOOT_ATTEMPTS && Some(v) == installed)
  {
    if !BootOf(s, v).ok && BootOf(s, v).attempts >= MAX_BOOT_ATTEMPTS {
      RestoreKeeps(s.(quarantine := Quarantined(s.quarantine, v), pending := None, bin := s.bin - {v}), current);
    }
  }

  lemma SecondKeeps(s: State, current: VersionText, everOk: set<VersionText>, installed: Option<VersionText>, tried: nat)
    requires FilesOk(s, everOk) && PendingCounted(s, everOk, installed, tried)
    ensures var (v, t) := SecondChance(s, current);
            FilesOk(t, everOk) && PendingCounted(t, everOk, installed, tried) && (v.Some? ==> v.value in everOk)
  {
    RestoreKeeps(s, current);
    var (exe, s1) := RestoreLastGood(s, current);
    if exe.Some? {
      MayKeeps(s1, exe.value, current, everOk, installed, tried);
    }
  }

  lemma HandoffKeeps(w: World, current: VersionText)
    requires Inv(w)
    ensures var (v, t) := Handoff(w.files, current);
            && FilesOk(t, w.everOk)
            && PendingCounted(t, w.everOk, w.installed, if v.Some? && v.value !in w.everOk then w.tried + 1 else w.tried)
            && (v.Some? && v.value !in w.everOk ==> w.tried < MAX_BOOT_ATTEMPTS && v == w.installed)
  {
    PendingKeeps(w.files, current);
    var (pending, s1) := VerifiedPending(w.files, current);
    RestoreKeeps(s1, current);
    var (exe, s2) := if pending.Some? then (pending, s1) else RestoreLastGood(s1, current);
    if exe.Some? {
      MayKeeps(s2, exe.value, current, w.everOk, w.installed, w.tried);
      var (may, s3) := MayHandoff(s2, exe.value, current);
      if !may {
        SecondKeeps(s3, current, w.everOk, w.installed, w.tried);
      }
    }
  }

  lemma RelaunchKeeps(w: World, current: VersionText)
    requires Inv(w)
    ensures var (v, t) := Relaunch(w.files, current);
            && FilesOk(t, w.everOk)
            && PendingCounted(t, w.everOk, w.installed, if v.Some? && v.value !in w.everOk then w.tried + 1 else w.tried)
            && (v.Some? && v.value !in w.everOk ==> w.tried < MAX_BOOT_ATTEMPTS && v == w.installed)
  {
    PendingKeeps(w.files, current);
    var (pending, s1) := VerifiedPending(w.files, current);
    if pending.Some? {
      MayKeeps(s1, pending.value, current, w.everOk, w.installed, w.tried);
    }
  }

  lemma NextKeeps(w: World, e: Event)
    requires Inv(w)
    ensures Inv(Next(w, e))
  {
    match e
    case Start(current, _) => HandoffKeeps(w, current);
    case Restart(current, _) => RelaunchKeeps(w, current);
    case _ =>
  }

  function Run(w: World, es: seq<Event>): World
    decreases |es|
  {
    if |es| == 0 then w else Run(Next(w, es[0]), es[1..])
  }

  lemma {:induction false} RunKeeps(w: World, es: seq<Event>)
    requires Inv(w)
    ensures Inv(Run(w, es))
    decreases |es|
  {
    if |es| > 0 {
      NextKeeps(w, es[0]);
      RunKeeps(Next(w, es[0]), es[1..]);
    }
  }

  /** Every version launched is the last one installed, or one recorded as well started before. */
  lemma LaunchedIsInstalledOrOk(w: World, e: Event)
    requires Inv(w) && Launch(w, e).0.Some?
    ensures Launch(w, e).0 == w.installed || Launch(w, e).0.value in w.everOk
  {
    if e.Start? {
      HandoffKeeps(w, e.current);
    } else {
      RelaunchKeeps(w, e.current);
    }
  }

  /** How many launches of a run start a version never recorded as well started until then. */
  function FailedLaunches(w: World, es: seq<Event>): nat
    decreases |es|
  {
    if |es| == 0 then 0
    else
      var v := Launch(w, es[0]).0;
      (if v.Some? && v.value !in w.everOk then 1 else 0) + FailedLaunches(Next(w, es[0]), es[1..])
  }

  /** With no new install, at most MAX_BOOT_ATTEMPTS launches in all are of a version that never
      started well, those before the run included; all others are of versions that did. */
  lemma {:induction false} FailedLaunchesBounded(w: World, es: seq<Event>)
    requires Inv(w) && forall e :: e in es ==> !e.Install?
    ensures w.failed + FailedLaunches(w, es) == Run(w, es).failed <= MAX_BOOT_ATTEMPTS
    decreases |es|
  {
    if |es| > 0 {
      NextKeeps(w, es[0]);
      FailedLaunchesBounded(Next(w, es[0]), es[1..]);
    }
  }

  /** Nothing installed or recorded yet, whatever exes lie there. */
  function FirstStart(bin: map<VersionText, Exe>): World {
    World(State(bin, None, None, None, []), {}, None, 0, 0)
  }

  /** From a first start, over any run: every version launched is the last one installed or one recorded
      as well started before, and no install is followed by more than MAX_BOOT_ATTEMPTS launches of a
      version never recorded so. */
  lemma GuardHolds(bin: map<VersionText, Exe>, es: seq<Event>, e: Event)
    ensures var w := Run(FirstStart(bin), es);
            && w.failed <= MAX_BOOT_ATTEMPTS
            && (Launch(w, e).0.Some? ==> Launch(w, e).0 == w.installed || Launch(w, e).0.value in w.everOk)
  {
    RunKeeps(FirstStart(bin), es);
    if Launch(Run(FirstStart(bin), es), e).0.Some? {
      LaunchedIsInstalledOrOk(Run(FirstStart(bin), es), e);
    }
  }

  // ---------------------------------------------------------------- what does start

  predicate IsStart(e: Event) {
    e.Start? || e.Restart?
  }

  /** The pending version can be started by the launcher `current`, as far as the files go. */
  predicate Startable(w: World, v: VersionText, current: VersionText) {
    w.files.pending == Some(v) && Eligible(w.files, Some(v), current) && Verifies(w.files.bin, v)
  }

  lemma StartCounts(s: State, v: VersionText, current: VersionText)
    requires s.pending == Some(v) && Eligible(s, Some(v), current) && Verifies(s.bin, v)
    requires s.boot.Some? && s.boot.value.version == v && !s.boot.value.ok && s.boot.value.attempts < MAX_BOOT_ATTEMPTS
    ensures Handoff(s, current) == (Some(v), s.(boot := Some(s.boot.value.(attempts := s.boot.value.attempts + 1))))
    ensures Relaunch(s, current) == Handoff(s, current)
  {
    PendingFound(s, v, current);
    StartOfPending(s, v, current);
    MayCounts(s, v, current);
  }

  lemma PendingFound(s: State, v: VersionText, current: VersionText)
    requires s.pending == Some(v) && Eligible(s, Some(v), current) && Verifies(s.bin, v)
    ensures VerifiedPending(s, current) == (Some(v), s)
  {
  }

  lemma MayCounts(s: State, v: VersionText, current: VersionText)
    requires s.boot.Some? && s.boot.value.version == v && !s.boot.value.ok && s.boot.value.attempts < MAX_BOOT_ATTEMPTS
    ensures MayHandoff(s, v, current) == (true, s.(boot := Some(s.boot.value.(attempts := s.boot.value.attempts + 1))))
  {
  }

  lemma StartOfPending(s: State, v: VersionText, current: VersionText)
    requires VerifiedPending(s, current) == (Some(v), s)
    ensures MayHandoff(s, v, current).0 ==> Handoff(s, current) == (Some(v), MayHandoff(s, v, current).1) == Relaunch(s, current)
  {
  }

  /** A pending version that never started well is launched exactly when fewer than MAX_BOOT_ATTEMPTS of
      its starts were counted since its install; such a start is counted and changes nothing else. */
  lemma PendingIsLaunched(w: World, v: VersionText, e: Event)
    requires Inv(w) && IsStart(e) && e.starts && Startable(w, v, e.current) && v !in w.everOk
    ensures Launch(w, e).0 == Some(v) <==> w.tried < MAX_BOOT_ATTEMPTS
    ensures w.tried < MAX_BOOT_ATTEMPTS ==>
              Next(w, e) == w.(files := Next(w, e).files, failed := w.failed + 1, tried := w.tried + 1)
              && Next(w, e).files.(boot := w.files.boot) == w.files
  {
    if w.tried == MAX_BOOT_ATTEMPTS {
      NotLaunched(w, v, e);
    } else {
      StartCounts(w.files, v, e.current);
      LaunchCounts(w, v, e);
    }
  }

  lemma LaunchCounts(w: World, v: VersionText, e: Event)
    requires IsStart(e) && e.starts && v !in w.everOk && Handoff(w.files, e.current) == Relaunch(w.files, e.current)
    requires Handoff(w.files, e.current).0 == Some(v)
    ensures Launch(w, e) == Handoff(w.files, e.current)
    ensures Next(w, e) == w.(files := Handoff(w.files, e.current).1, failed := w.failed + 1, tried := w.tried + 1)
  {
  }

  /** A start whose process could not be created counts as well, and changes nothing else either. */
  lemma FailedStartCounts(w: World, v: VersionText, e: Event)
    requires Inv(w) && IsStart(e) && !e.starts && Startable(w, v, e.current) && v !in w.everOk && w.tried < MAX_BOOT_ATTEMPTS
    ensures Launch(w, e).0.None? && Next(w, e) == w.(files := Next(w, e).files, tried := w.tried + 1)
    ensures Next(w, e).files.(boot := w.files.boot) == w.files
  {
  }

  lemma NotLaunched(w: World, v: VersionText, e: Event)
    requires Inv(w) && IsStart(e) && Startable(w, v, e.current) && v !in w.everOk && w.tried == MAX_BOOT_ATTEMPTS
    ensures Launch(w, e).0 != Some(v) && v in Next(w, e).files.quarantine && v !in Next(w, e).files.bin
    ensures Next(w, e).files.pending != Some(v)
  {
    if e.Start? {
      ThenQuarantined(w, e.current);
    } else {
      RestoreKeeps(w.files.(quarantine := Quarantined(w.files.quarantine, v), pending := None, bin := w.files.bin - {v}), e.current);
    }
  }

  function Times(v: VersionText, vs: seq<VersionText>): nat {
    if |vs| == 0 then 0 else (if vs[0] == v then 1 else 0) + Times(v, vs[1..])
  }

  /** Only starts by one launcher, whose processes can be created. */
  predicate StartsOf(es: seq<Event>, current: VersionText) {
    forall e | e in es :: IsStart(e) && e.starts && e.current == current
  }

  lemma LaunchesOfOneMore(w: World, v: VersionText, es: seq<Event>)
    requires |es| > 0
    ensures Times(v, Launches(w, es)) == (if Launch(w, es[0]).0 == Some(v) then 1 else 0) + Times(v, Launches(Next(w, es[0]), es[1..]))
  {
    var rest := Launches(Next(w, es[0]), es[1..]);
    if Launch(w, es[0]).0.Some? {
      assert Launches(w, es) == [Launch(w, es[0]).0.value] + rest;
    } else {
      assert Launches(w, es) == rest;
    }
  }

  lemma {:induction false} GoneIsNotLaunched(w: World, v: VersionText, current: VersionText, es: seq<Event>)
    requires StartsOf(es, current) && v !in w.files.bin
    ensures Times(v, Launches(w, es)) == 0
    decreases |es|
  {
    if |es| > 0 {
      assert es[0] in es;
      LaunchesOfOneMore(w, v, es);
      NextAddsNone(w, es[0]);
      LaunchedIsVerified(w.files, current);
      GoneIsNotLaunched(Next(w, es[0]), v, current, es[1..]);
    }
  }

  lemma {:induction false} RemainingStarts(w: World, v: VersionText, current: VersionText, es: seq<Event>)
    requires Inv(w) && Startable(w, v, current) && v !in w.everOk && StartsOf(es, current)
    ensures Times(v, Launches(w, es)) == (if |es| <= MAX_BOOT_ATTEMPTS - w.tried then |es| else MAX_BOOT_ATTEMPTS - w.tried)
    ensures v in Run(w, es).files.bin <==> |es| <= MAX_BOOT_ATTEMPTS - w.tried
    ensures |es| <= MAX_BOOT_ATTEMPTS - w.tried ==> Run(w, es).files.quarantine == w.files.quarantine
    decreases |es|
  {
    if |es| > 0 {
      var e := es[0];
      assert e in es;
      PendingIsLaunched(w, v, e);
      NextKeeps(w, e);
      LaunchesOfOneMore(w, v, es);
      if w.tried < MAX_BOOT_ATTEMPTS {
        RemainingStarts(Next(w, e), v, current, es[1..]);
      } else {
        NotLaunched(w, v, e);
        GoneIsNotLaunched(Next(w, e), v, current, es[1..]);
        StaysGone(Next(w, e), v, current, es[1..]);
      }
    }
  }

  lemma {:induction false} StaysGone(w: World, v: VersionText, current: VersionText, es: seq<Event>)
    requires StartsOf(es, current) && v !in w.files.bin
    ensures v !in Run(w, es).files.bin
    decreases |es|
  {
    if |es| > 0 {
      assert es[0] in es;
      NextAddsNone(w, es[0]);
      StaysGone(Next(w, es[0]), v, current, es[1..]);
    }
  }

  /** From a first start, over any run, then an install of a version that never started well: of the
      starts that follow exactly the first MAX_BOOT_ATTEMPTS launch it. None of these quarantines anything
      or deletes its exe; the next one does both, and it is never launched again. */
  lemma ExactlyTheFirstStarts(bin: map<VersionText, Exe>, before: seq<Event>, v: VersionText, digest: string, exes: seq<VersionText>,
                              current: VersionText, es: seq<Event>)
    requires var w := Next(Run(FirstStart(bin), before), Install(v, digest, exes));
             v !in w.everOk && v in w.files.bin && digest != "" && Eligible(w.files, Some(v), current)
    requires StartsOf(es, current)
    ensures var w := Next(Run(FirstStart(bin), before), Install(v, digest, exes));
            && Times(v, Launches(w, es)) == (if |es| <= MAX_BOOT_ATTEMPTS then |es| else MAX_BOOT_ATTEMPTS)
            && (|es| <= MAX_BOOT_ATTEMPTS ==> v in Run(w, es).files.bin && Run(w, es).files.quarantine == w.files.quarantine)
            && (|es| > MAX_BOOT_ATTEMPTS ==> v !in Run(w, es).files.bin)
  {
    RunKeeps(FirstStart(bin), before);
    var w0 := Run(FirstStart(bin), before);
    NextKeeps(w0, Install(v, digest, exes));
    RemainingStarts(Next(w0, Install(v, digest, exes)), v, current, es);
  }

  /** A pending version whose last start was recorded as good is launched, and the files stay as they are. */
  lemma GoodIsLaunched(w: World, v: VersionText, e: Event)
    requires IsStart(e) && e.starts && Startable(w, v, e.current)
    requires w.files.boot.Some? && w.files.boot.value.version == v && w.files.boot.value.ok
    ensures Launch(w, e) == (Some(v), w.files) && Next(w, e).files == w.files
  {
  }

  /** The first good start of a version is recorded, and makes it the last good one if it verifies. */
  lemma GoodStartRecorded(w: World, v: VersionText, exes: seq<VersionText>)
    requires Inv(w) && w.files.boot.Some? && w.files.boot.value.version == v && !w.files.boot.value.ok
    ensures var t := Next(w, BootOk(v, exes));
            && t.files.boot.Some? && t.files.boot.value.version == v && t.files.boot.value.ok && v in t.everOk
            && (Verifies(w.files.bin, v) ==> t.files.lastGood == Some(v) && v in t.files.bin && t.files.bin[v] == w.files.bin[v])
            && t.files.pending == w.files.pending && t.files.quarantine == w.files.quarantine
  {
    var s1 := MarkOk(w.files, v);
    if Verifies(w.files.bin, v) && Lists(exes, s1.bin) {
      PruneKeeps(s1, exes, v);
    }
  }

  /** So once it has started well, every further start by an older launcher launches it. */
  lemma {:induction false} GoodForEver(w: World, v: VersionText, current: VersionText, es: seq<Event>)
    requires Startable(w, v, current) && StartsOf(es, current)
    requires w.files.boot.Some? && w.files.boot.value.version == v && w.files.boot.value.ok
    ensures Times(v, Launches(w, es)) == |es| && Run(w, es).files == w.files
    decreases |es|
  {
    if |es| > 0 {
      assert es[0] in es;
      GoodIsLaunched(w, v, es[0]);
      LaunchesOfOneMore(w, v, es);
      GoodForEver(Next(w, es[0]), v, current, es[1..]);
    }
  }

  /** When one start of a pending version is recorded as good, all the starts that follow launch it. */
  lemma OneGoodStartIsEnough(w: World, v: VersionText, exes: seq<VersionText>, current: VersionText, es: seq<Event>)
    requires Inv(w) && Startable(w, v, current) && StartsOf(es, current)
    requires w.files.boot.Some? && w.files.boot.value.version == v && !w.files.boot.value.ok
    ensures Times(v, Launches(Next(w, BootOk(v, exes)), es)) == |es|
  {
    GoodStartRecorded(w, v, exes);
    GoodForEver(Next(w, BootOk(v, exes)), v, current, es);
  }

  /** Counted out: its last starts were counted to the end, and none was good. */
  predicate CountedOut(w: World, v: VersionText) {
    w.files.boot.Some? && w.files.boot.value.version == v && !w.files.boot.value.ok && w.files.boot.value.attempts >= MAX_BOOT_ATTEMPTS
  }

  /** With no pending version to start, a start launches the last good one exactly when that can be
      started and is not itself counted out; it becomes the pending one. */
  lemma LastGoodIsLaunched(w: World, current: VersionText)
    requires w.files.pending.Some? ==> !Startable(w, w.files.pending.value, current)
    requires w.files.lastGood.Some?
    ensures Launch(w, Start(current, true)).0 == w.files.lastGood
       <==> Eligible(w.files, w.files.lastGood, current) && Verifies(w.files.bin, w.files.lastGood.value) && !CountedOut(w, w.files.lastGood.value)
    ensures Launch(w, Start(current, true)).0.Some? ==>
              Launch(w, Start(current, true)).0 == w.files.lastGood && Launch(w, Start(current, true)).1.pending == w.files.lastGood
  {
    NothingPending(w, current);
    LastGoodStarts(w.files, w.files.lastGood.value, current);
  }

  lemma LastGoodStarts(s: State, g: VersionText, current: VersionText)
    requires VerifiedPending(s, current).0.None? && VerifiedPending(s, current).1.(bin := s.bin) == s && s.lastGood == Some(g)
    requires Verifies(VerifiedPending(s, current).1.bin, g) <==> Verifies(s.bin, g)
    ensures Handoff(s, current).0 == Some(g)
       <==> Eligible(s, Some(g), current) && Verifies(s.bin, g) && (BootOf(s, g).ok || BootOf(s, g).attempts < MAX_BOOT_ATTEMPTS)
    ensures Handoff(s, current).0.Some? ==> Handoff(s, current).0 == Some(g) && Handoff(s, current).1.pending == Some(g)
  {
    if Eligible(s, Some(g), current) && Verifies(s.bin, g) {
      LastGoodHandoff(s, g, current);
    } else {
      NoLastGoodToRestore(s, current);
      NoLastGood(s, current);
    }
  }

  lemma NoLastGoodToRestore(s: State, current: VersionText)
    requires VerifiedPending(s, current).0.None? && s.lastGood.Some?
    requires Verifies(VerifiedPending(s, current).1.bin, s.lastGood.value) ==> Verifies(s.bin, s.lastGood.value)
    requires !(Eligible(s, s.lastGood, current) && Verifies(s.bin, s.lastGood.value))
    ensures RestoreLastGood(VerifiedPending(s, current).1, current).0.None?
  {
    var s1 := VerifiedPending(s, current).1;
    assert s1.lastGood == s.lastGood && s1.quarantine == s.quarantine;
    assert Eligible(s1, s1.lastGood, current) <==> Eligible(s, s.lastGood, current);
  }

  lemma LastGoodHandoff(s: State, g: VersionText, current: VersionText)
    requires VerifiedPending(s, current).0.None? && VerifiedPending(s, current).1.(bin := s.bin) == s
    requires s.lastGood == Some(g) && Eligible(s, Some(g), current) && Verifies(VerifiedPending(s, current).1.bin, g)
    ensures Handoff(s, current).0 == if BootOf(s, g).ok || BootOf(s, g).attempts < MAX_BOOT_ATTEMPTS then Some(g) else None
    ensures Handoff(s, current).0.Some? ==> Handoff(s, current).1.pending == Some(g)
  {
    var s1 := VerifiedPending(s, current).1;
    assert Eligible(s1, Some(g), current) && BootOf(s1, g) == BootOf(s, g);
    FromLastGood(s1, g, current);
    ThroughLastGood(s, s1, g, current);
  }

  lemma NoLastGood(s: State, current: VersionText)
    requires VerifiedPending(s, current).0.None? && RestoreLastGood(VerifiedPending(s, current).1, current).0.None?
    ensures Handoff(s, current).0.None?
  {
  }

  lemma ThroughLastGood(s: State, s1: State, g: VersionText, current: VersionText)
    requires VerifiedPending(s, current) == (None, s1) && RestoreLastGood(s1, current) == (Some(g), s1.(pending := Some(g)))
    requires var (may, t) := MayHandoff(s1.(pending := Some(g)), g, current); !may ==> SecondChance(t, current).0.None?
    ensures var (may, t) := MayHandoff(s1.(pending := Some(g)), g, current);
            Handoff(s, current).0 == (if may then Some(g) else None) && (may ==> Handoff(s, current).1 == t)
  {
  }

  lemma NothingPending(w: World, current: VersionText)
    requires w.files.pending.Some? ==> !Startable(w, w.files.pending.value, current)
    requires w.files.lastGood.Some?
    ensures var (v, s1) := VerifiedPending(w.files, current);
            && v.None? && s1.(bin := w.files.bin) == w.files
            && (Verifies(s1.bin, w.files.lastGood.value) <==> Verifies(w.files.bin, w.files.lastGood.value))
  {
  }

  lemma FromLastGood(s: State, g: VersionText, current: VersionText)
    requires s.lastGood == Some(g) && Eligible(s, Some(g), current) && Verifies(s.bin, g)
    ensures var (may, t) := MayHandoff(s.(pending := Some(g)), g, current);
            && RestoreLastGood(s, current) == (Some(g), s.(pending := Some(g)))
            && (may <==> BootOf(s, g).ok || BootOf(s, g).attempts < MAX_BOOT_ATTEMPTS)
            && (may ==> t.pending == Some(g)) && (!may ==> SecondChance(t, current).0.None?)
  {
    if !BootOf(s, g).ok && BootOf(s, g).attempts >= MAX_BOOT_ATTEMPTS {
      GivenUp(s.(pending := Some(g)), g, current);
    }
  }

  /** A version given up is not started by the second chance. */
  lemma GivenUp(s: State, v: VersionText, current: VersionText)
    requires BootOf(s, v).attempts >= MAX_BOOT_ATTEMPTS && !BootOf(s, v).ok && s.lastGood == Some(v)
    ensures !MayHandoff(s, v, current).0 && SecondChance(MayHandoff(s, v, current).1, current).0.None?
  {
    assert v !in MayHandoff(s, v, current).1.bin;
  }

  /** After MAX_BOOT_ATTEMPTS such choices the pending version is not started again: the next start
      quarantines it, deletes its exe, and starts the last good launcher exactly when that can be. */
  lemma ThenQuarantined(w: World, current: VersionText)
    requires Inv(w) && w.tried == MAX_BOOT_ATTEMPTS && Eligible(w.files, w.files.pending, current)
    requires w.files.pending.value !in w.everOk && Verifies(w.files.bin, w.files.pending.value)
    ensures var (v, t) := Handoff(w.files, current);
            && w.files.pending.value in t.quarantine && w.files.pending.value !in t.bin && t.pending != w.files.pending
            && v == if Eligible(t, w.files.lastGood, current) && Verifies(w.files.bin, w.files.lastGood.value)
                    then w.files.lastGood else None
  {
    var v := w.files.pending.value;
    var s := w.files.(quarantine := Quarantined(w.files.quarantine, v), pending := None, bin := w.files.bin - {v});
    RestoreKeeps(s, current);
    var t := RestoreLastGood(s, current).1;
    assert Handoff(w.files, current) == SecondChance(t, current);
    RestoreKeeps(t, current);
    StaysOut(t, v, current, w.everOk);
    LastGoodNext(s, v, current);
  }

  /** After a fallback the last good launcher is the second chance, if it can be started. */
  lemma LastGoodNext(s: State, v: VersionText, current: VersionText)
    requires s.boot.Some? && s.boot.value.version == v && s.lastGood != Some(v)
    ensures SecondChance(RestoreLastGood(s, current).1, current).0 ==
            if Eligible(s, s.lastGood, current) && Verifies(s.bin, s.lastGood.value) then s.lastGood else None
  {
  }

  lemma StaysOut(s: State, v: VersionText, current: VersionText, everOk: set<VersionText>)
    requires FilesOk(s, everOk) && v !in everOk && v in s.quarantine && v !in s.bin && s.pending != Some(v)
    requires s.boot.Some? && s.boot.value.version == v
    ensures var (x, t) := SecondChance(s, current);
            v in t.quarantine && v !in t.bin && t.pending != Some(v) && (x.Some? ==> x == s.lastGood)
  {
    RestoreKeeps(s, current);
  }

  // ---------------------------------------------------------------- pruning

  /** A strict weak order: what is not newer is not newer transitively either. */
  ghost predicate WeakOrder(newer: Order) {
    && (forall a, b :: newer(a, b) ==> !newer(b, a))
    && forall a, b, c :: !newer(a, b) && !newer(b, c) ==> !newer(a, c)
  }

  lemma NewerIsWeakOrder()
    ensures WeakOrder(Newer())
  {
    forall a, b, c
      ensures IsNewer(a, b) ==> !IsNewer(b, a)
      ensures !IsNewer(a, b) && !IsNewer(b, c) ==> !IsNewer(a, c)
    {
      NewerIsStrictWeakOrder(a, b, a);
      NewerIsStrictWeakOrder(a, b, c);
      NewerIsStrictWeakOrder(a, c, b);
      NewerIsStrictWeakOrder(b, a, c);
      NewerIsStrictWeakOrder(b, c, a);
    }
  }

  ghost predicate Descending(newer: Order, order: seq<VersionText>) {
    forall i, j :: 0 <= i < j < |order| ==> !newer(order[j], order[i])
  }

  lemma {:induction false} InsertHolds(newer: Order, v: VersionText, order: seq<VersionText>)
    ensures forall x :: x in InsertNewest(newer, v, order) <==> x == v || x in order
  {
    if |order| > 0 && newer(order[0], v) {
      InsertHolds(newer, v, order[1..]);
      assert forall x :: x in order <==> x == order[0] || x in order[1..];
    }
  }

  /** Sorting a listing loses and invents nothing. */
  lemma {:induction false} SortHolds(newer: Order, exes: seq<VersionText>)
    ensures forall x :: x in NewestFirst(newer, exes) <==> x in exes
  {
    if |exes| > 0 {
      SortHolds(newer, exes[1..]);
      InsertHolds(newer, exes[0], NewestFirst(newer, exes[1..]));
      assert forall x :: x in exes <==> x == exes[0] || x in exes[1..];
    }
  }

  /** Every exe is in the listing, so deleting those listed and not kept is pruning. */
  lemma PruneDeletesListed(s: State, exes: seq<VersionText>)
    requires Lists(exes, s.bin)
    ensures Prune(s, exes).bin == map v | v in s.bin && (v in Keep(s, exes) || v !in NewestFirst(Newer(), exes)) :: s.bin[v]
  {
    SortHolds(Newer(), exes);
  }

  lemma {:induction false} InsertDescending(newer: Order, v: VersionText, order: seq<VersionText>)
    requires WeakOrder(newer) && Descending(newer, order)
    ensures Descending(newer, InsertNewest(newer, v, order))
  {
    if |order| > 0 {
      if newer(order[0], v) {
        InsertDescending(newer, v, order[1..]);
        InsertHolds(newer, v, order[1..]);
        var rest := InsertNewest(newer, v, order[1..]);
        forall j | 0 <= j < |rest|
          ensures !newer(rest[j], order[0])
        {
          assert rest[j] in rest;
        }
      } else {
        forall j | 0 <= j < |order|
          ensures !newer(order[j], v)
        {
          assert j > 0 ==> !newer(order[j], order[0]);
        }
      }
    }
  }

  lemma {:induction false} SortDescending(newer: Order, exes: seq<VersionText>)
    requires WeakOrder(newer)
    ensures Descending(newer, NewestFirst(newer, exes))
  {
    if |exes| > 0 {
      SortDescending(newer, exes[1..]);
      InsertDescending(newer, exes[0], NewestFirst(newer, exes[1..]));
    }
  }

  /** Pruning deletes neither the last good launcher nor an exe newer than one it keeps for its age. */
  lemma PruneKeeps(s: State, exes: seq<VersionText>, v: VersionText)
    requires Lists(exes, s.bin) && v in s.bin
    ensures Some(v) == s.lastGood ==> v in Prune(s, exes).bin
    ensures v in Prune(s, exes).bin ==> Prune(s, exes).bin[v] == s.bin[v]
    ensures v !in Prune(s, exes).bin ==>
              var order := NewestFirst(Newer(), exes);
              |order| > 2 && !Newer()(v, order[0]) && !Newer()(v, order[1])
  {
    NewerIsWeakOrder();
    SortDescending(Newer(), exes);
    SortHolds(Newer(), exes);
    var order := NewestFirst(Newer(), exes);
    assert v in order;
    var i :| 0 <= i < |order| && order[i] == v;
    assert |order| > 2 ==> order[0] in order[..2] && order[1] in order[..2];
  }

  /** And it leaves at most three exes. */
  lemma PruneLeavesThree(s: State, exes: seq<VersionText>)
    ensures |Prune(s, exes).bin| <= 3
  {
    var keep := Keep(s, exes);
    FewKeys(Prune(s, exes).bin.Keys, keep);
    assert |Prune(s, exes).bin| == |Prune(s, exes).bin.Keys|;
  }

  lemma {:induction false} FewKeys(names: set<VersionText>, keep: seq<VersionText>)
    requires forall v :: v in names ==> v in keep
    ensures |names| <= |keep|
  {
    if |keep| > 0 {
      FewKeys(names - {keep[0]}, keep[1..]);
      assert names <= (names - {keep[0]}) + {keep[0]};
    } else {
      assert names == {};
    }
  }

  /** A quarantined version stays so, unless the list is full and it is the oldest there. */
  lemma QuarantineKeeps(q: seq<VersionText>, v: VersionText, x: VersionText)
    requires |q| <= QUARANTINE_SIZE
    ensures v in Quarantined(q, v) && |Quarantined(q, v)| <= QUARANTINE_SIZE
    ensures x in Quarantined(q, v) ==> x in q || x == v
    ensures x in q && x !in Quarantined(q, v) ==> |q| == QUARANTINE_SIZE && q[0] == x && v !in q
  {
    if v !in q && |q| == QUARANTINE_SIZE {
      assert Quarantined(q, v) == q[1..] + [v];
      assert q == [q[0]] + q[1..];
    }
  }
}
