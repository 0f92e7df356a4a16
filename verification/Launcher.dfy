/**
 The updater's files as they are changed, one after the other (installer/updater.py). Every method is
 tied to a function of CrashGuard, so what is proved there of runs holds of its calls.
 */
module Launcher {
  import opened Prelude
  import opened VersionOrder
  import opened CrashGuard

  class Updater {
    var bin: map<VersionText, Exe>
    var pending: Option<VersionText>
    var bootState: Option<Boot>
    var lastGood: Option<VersionText>
    var quarantine: seq<VersionText>

    ghost function Abs(): State
      reads this
    {
      State(bin, pending, bootState, lastGood, quarantine)
    }

    constructor (bin: map<VersionText, Exe>)
      ensures Abs() == State(bin, None, None, None, [])
    {
      this.bin, pending, bootState, lastGood, quarantine := bin, None, None, None, [];
    }

    /** The signed manifest beside the exe must name this version and this very content. */
    method VerifiedExe(v: VersionText) returns (ok: bool)
      modifies this`bin
      ensures ok == Verifies(old(bin), v) && Abs() == AfterVerify(old(Abs()), v)
    {
      if v !in bin {
        return false;
      }
      var manifest := bin[v].sidecar;
      if manifest.None? || manifest.value.version != v {
        return false;
      }
      if manifest.value.sha256 == "" || bin[v].digest != manifest.value.sha256 {
        bin := bin - {v};
        return false;
      }
      return true;
    }

    method VerifiedPendingExe(current: VersionText) returns (exe: Option<VersionText>)
      modifies this`bin
      ensures (exe, Abs()) == VerifiedPending(old(Abs()), current)
    {
      if pending.None? {
        return None;
      }
      var version := pending.value;
      if version == "" || !IsNewer(version, current) || version in quarantine {
        return None;
      }
      var ok := VerifiedExe(version);
      return if ok then Some(version) else None;
    }

    method RestoreLastGoodExe(current: VersionText) returns (exe: Option<VersionText>)
      modifies this`bin, this`pending
      ensures (exe, Abs()) == RestoreLastGood(old(Abs()), current)
    {
      if lastGood.None? || lastGood.value == "" || !IsNewer(lastGood.value, current) || lastGood.value in quarantine {
        return None;
      }
      var ok := VerifiedExe(lastGood.value);
      if !ok {
        return None;
      }
      pending := lastGood;
      return lastGood;
    }

    method Quarantine(v: VersionText)
      modifies this`quarantine
      ensures quarantine == Quarantined(old(quarantine), v)
    {
      var bad := quarantine;
      if v !in bad {
        bad := bad + [v];
      }
      quarantine := if |bad| > QUARANTINE_SIZE then bad[|bad| - QUARANTINE_SIZE..] else bad;
    }

    method Fallback(v: VersionText, current: VersionText)
      modifies this
      ensures Abs() == FallbackToBase(old(Abs()), v, current)
    {
      Quarantine(v);
      pending := None;
      bin := bin - {v};
      var _ := RestoreLastGoodExe(current);
    }

    /** Counts a start of v, or gives v up. */
    method MayHandoffTo(v: VersionText, current: VersionText) returns (may: bool)
      modifies this
      ensures (may, Abs()) == MayHandoff(old(Abs()), v, current)
    {
      var boot := if bootState.Some? && bootState.value.version == v then bootState.value else Boot(v, 0, false);
      if boot.ok {
        return true;
      }
      if boot.attempts >= MAX_BOOT_ATTEMPTS {
        Fallback(v, current);
        return false;
      }
      bootState := Some(boot.(attempts := boot.attempts + 1));
      return true;
    }

    method RunPendingHandoff(current: VersionText) returns (exe: Option<VersionText>)
      modifies this
      ensures (exe, Abs()) == Handoff(old(Abs()), current)
    {
      exe := VerifiedPendingExe(current);
      if exe.None? {
        exe := RestoreLastGoodExe(current);
        if exe.None? {
          return None;
        }
      }
      var may := MayHandoffTo(exe.value, current);
      if !may {
        exe := RestoreLastGoodExe(current);
        if exe.None? {
          return None;
        }
        may := MayHandoffTo(exe.value, current);
        if !may {
          return None;
        }
      }
    }

    method RelaunchPendingExe(current: VersionText) returns (exe: Option<VersionText>)
      modifies this
      ensures (exe, Abs()) == Relaunch(old(Abs()), current)
    {
      exe := VerifiedPendingExe(current);
      if exe.None? {
        return None;
      }
      var may := MayHandoffTo(exe.value, current);
      if !may {
        return None;
      }
    }

    method MarkBootOk(current: VersionText, exes: seq<VersionText>)
      modifies this
      ensures Abs() == Pruned(MarkOk(old(Abs()), current), exes)
    {
      if bootState.Some? && bootState.value.version == current && !(bootState.value.ok && bootState.value.attempts == 0) {
        bootState := Some(Boot(current, 0, true));
        var ok := VerifiedExe(current);
        if ok {
          lastGood := Some(current);
        }
      }
      PruneOldExe(exes);
    }

    method ApplyExeUpdate(v: VersionText, digest: string, exes: seq<VersionText>)
      modifies this
      ensures Abs() == Pruned(InstallExe(old(Abs()), v, digest), exes)
    {
      bin := bin[v := Exe(digest, Some(Sidecar(v, digest)))];
      pending := Some(v);
      bootState := Some(Boot(v, 0, false));
      PruneOldExe(exes);
    }

    /** Deletes every exe of the listing but the two newest and the last good one. */
    method PruneOldExe(exes: seq<VersionText>)
      modifies this`bin
      ensures Abs() == Pruned(old(Abs()), exes)
    {
      if !Lists(exes, bin) {
        return;
      }
      var order := NewestFirst(Newer(), exes);
      var kept := if lastGood.Some? then [lastGood.value] else [];
      ghost var s := Abs();
      DeleteOthers(order, (if |order| <= 2 then order else order[..2]) + kept);
      PruneDeletesListed(s, exes);
    }

    method DeleteOthers(exes: seq<VersionText>, keep: seq<VersionText>)
      modifies this`bin
      ensures bin == map v | v in old(bin) && (v in keep || v !in exes) :: old(bin)[v]
    {
      var i := 0;
      while i < |exes|
        invariant i <= |exes|
        invariant bin == map v | v in old(bin) && (v in keep || v !in exes[..i]) :: old(bin)[v]
      {
        if exes[i] !in keep {
          bin := bin - {exes[i]};
        }
        assert exes[..i + 1] == exes[..i] + [exes[i]];
        i := i + 1;
      }
      assert exes[..i] == exes;
    }
  }
}
