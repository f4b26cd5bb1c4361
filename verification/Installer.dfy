/**
 Installing the service as a transaction over executable, unit file, enablement and
 activity: every step can fail, and a failure is compensated from what was saved.
 */
module Installer {
  import opened Basics
  import opened Machines
  import ManagedUnit
  import UnitAcceptance

  /** What an install is asked for; `valid` stands for the checks of platform, user, paths and arguments. */
  datatype Request = Request(valid: bool, exe: Option<Blob>, unit: string)

  datatype Outcome =
    | Refused                      // before the account is created
    | AlreadyCorrect
    | Unprepared                   // account, data directory or backup copy
    | Repaired
    | Installed
    | Aborted(undo: Undo)          // compensated

  /**
   How a compensation went: no rollback failure is reported; the new executable had been put in
   place; the executable was put back, or removed where there was none; the backup copy is gone.
   */
  datatype Undo = Undo(complete: bool, swapped: bool, restored: bool, backupGone: bool)

  /** What is remembered for the compensation. */
  datatype Prior = Prior(unit: Option<string>, hadBinary: bool, enabled: string, active: string)

  predicate RestorableEnabled(word: string) {
    word == "enabled" || word == "enabled-runtime" || word == "disabled"
  }

  predicate RestorableActive(word: string) {
    word == "active" || word == "inactive"
  }

  function EnableSteps(word: string): seq<Verb> {
    if word == "enabled" then [Disable, Enable]
    else if word == "enabled-runtime" then [Disable, EnableRuntime]
    else [Disable]
  }

  function ActiveStep(word: string): Verb {
    if word == "active" then Restart else Stop
  }

  /** The calls that activate an installed unit. */
  function ForwardSteps(p: Prior): seq<Verb> {
    var steps := [DaemonReload] + if p.unit == None then [Enable, Start] else EnableSteps(p.enabled) + [ActiveStep(p.active)];
    var last := steps[|steps| - 1];
    if last == Start || last == Restart then steps[..|steps| - 1] + [ResetFailed, last] else steps
  }

  /** The machine after calls that all succeed. */
  function DoAll(steps: seq<Verb>, m: Machine): Option<Machine> {
    if steps == [] then Some(m)
    else
      var before := DoAll(steps[..|steps| - 1], m);
      var v := steps[|steps| - 1];
      if before.None? || !Can(v, before.value) then None else Some(Do(v, before.value))
  }

  /** Runs the calls in order until one fails. */
  method RunSteps(h: Host, steps: seq<Verb>) returns (ok: bool)
    modifies h`loaded, h`enabled, h`active, h`failures
    ensures ok ==> DoAll(steps, old(h.State())) == Some(h.State())
    ensures ok ==> h.failures == old(h.failures)
    ensures !ok ==> h.failures == old(h.failures) + 1
    ensures old(h.active) == Down("inactive") && Start !in steps && Restart !in steps ==> h.active == old(h.active)
  {
    for i := 0 to |steps|
      invariant DoAll(steps[..i], old(h.State())) == Some(h.State()) && h.failures == old(h.failures)
      invariant old(h.active) == Down("inactive") && Start !in steps && Restart !in steps ==> h.active == old(h.active)
    {
      assert steps[..i + 1][..i] == steps[..i];
      ok := h.Systemctl(steps[i]);
      if !ok {
        return false;
      }
    }
    assert steps[..|steps|] == steps;
    return true;
  }

  lemma EnableStepsEffect(word: string, m: Machine)
    requires RestorableEnabled(word)
    ensures DoAll(EnableSteps(word), m) == Some(m.(enabled := word))
  {
    var steps := EnableSteps(word);
    assert steps[..1] == [Disable] && [Disable][..0] == [];
    assert DoAll([], m) == Some(m);
    assert DoAll([Disable], m) == Some(m.(enabled := "disabled"));
    if |steps| == 2 {
      assert steps[..|steps| - 1] == [Disable];
    }
  }

  lemma {:induction false} DoAllAppend(a: seq<Verb>, b: seq<Verb>, m: Machine)
    ensures DoAll(a + b, m) == if DoAll(a, m).None? then None else DoAll(b, DoAll(a, m).value)
    decreases |b|
  {
    if b == [] {
      assert a + b == a;
    } else {
      DoAllAppend(a, b[..|b| - 1], m);
      assert (a + b)[..|a + b| - 1] == a + b[..|b| - 1];
    }
  }

  lemma DoOne(v: Verb, m: Machine)
    ensures DoAll([v], m) == if Can(v, m) then Some(Do(v, m)) else None
  {
    assert [v][..0] == [] && DoAll([], m) == Some(m);
  }

  function Activation(last: Verb): seq<Verb> {
    if last == Start || last == Restart then [ResetFailed, last] else [last]
  }

  lemma ActivationEffect(last: Verb, m: Machine)
    ensures DoAll(Activation(last), m) == if Can(last, m) then Some(Do(last, m)) else None
  {
    DoOne(last, m);
    DoOne(ResetFailed, m);
    DoAllAppend([ResetFailed], [last], m);
    assert [ResetFailed] + [last] == [ResetFailed, last];
  }

  /** All forward calls together load the new unit and keep, or on a fresh machine establish, enablement and activity. */
  lemma ForwardEffect(p: Prior, m: Machine)
    requires p.unit.Some? ==> RestorableEnabled(p.enabled)
    requires m.unit.Some?
    ensures DoAll(ForwardSteps(p), m) ==
            var enabled := if p.unit.Some? then p.enabled else "enabled";
            var last := if p.unit.Some? then ActiveStep(p.active) else Start;
            var n := m.(loaded := m.unit, enabled := enabled);
            if Can(last, n) then Some(Do(last, n)) else None
  {
    var enables := if p.unit.Some? then EnableSteps(p.enabled) else [Enable];
    var last := if p.unit.Some? then ActiveStep(p.active) else Start;
    var n := m.(loaded := m.unit);
    DoOne(DaemonReload, m);
    DoAllAppend([DaemonReload], enables, m);
    if p.unit.Some? {
      EnableStepsEffect(p.enabled, n);
    } else {
      DoOne(Enable, n);
    }
    DoAllAppend([DaemonReload] + enables, Activation(last), m);
    ActivationEffect(last, n.(enabled := if p.unit.Some? then p.enabled else "enabled"));
    assert ForwardSteps(p) == [DaemonReload] + enables + Activation(last);
  }

  /** The unit is loaded first, and nothing is started before its failure is cleared. */
  lemma ForwardOrder(p: Prior)
    ensures var steps := ForwardSteps(p);
            && |steps| > 1 && steps[0] == DaemonReload
            && (forall i :: 0 <= i < |steps| && (steps[i] == Start || steps[i] == Restart) ==> i > 0 && steps[i - 1] == ResetFailed)
    ensures p.unit.None? ==> ForwardSteps(p) == [DaemonReload, Enable, ResetFailed, Start]
    ensures p.unit.Some? && p.active == "active" ==>
              exists n :: 0 < n < |ForwardSteps(p)| && ForwardSteps(p)[..n] == [DaemonReload] + EnableSteps(p.enabled)
                          && ForwardSteps(p)[n..] == [ResetFailed, Restart]
  {
    if p.unit.Some? && p.active == "active" {
      assert ForwardSteps(p) == [DaemonReload] + EnableSteps(p.enabled) + [ResetFailed, Restart];
      assert ForwardSteps(p)[..1 + |EnableSteps(p.enabled)|] == [DaemonReload] + EnableSteps(p.enabled);
    }
  }

  /** Nothing of the attempt is left: no backup copy, and no executable or unit where there was none. */
  predicate Clean(h: Host, p: Prior)
    reads h
  {
    h.preinstall == None && (!p.hadBinary ==> h.binary == None) && (p.unit.None? ==> h.unit == None)
  }

  method Neutralize(h: Host) returns (ok: bool)
    modifies h`loaded, h`enabled, h`active, h`failures
    ensures h.loaded == old(h.loaded) && h.failures >= old(h.failures) + (if ok then 0 else 1)
    ensures ok ==> h.enabled == "disabled" && h.active == Stopped(old(h.active))
  {
    var stopped := h.Systemctl(Stop);
    var disabled := h.Systemctl(Disable);
    ok := stopped && disabled;
  }

  /** First nothing runs any more; then the executable and the unit are put back. */
  method RestoreFiles(h: Host, p: Prior) returns (complete: bool, restored: bool, backupGone: bool)
    modifies h`binary, h`preinstall, h`unit, h`loaded, h`enabled, h`active, h`failures
    ensures h.failures >= old(h.failures) + (if complete then 0 else 1)
    ensures h.failures == old(h.failures) ==> complete && restored && Clean(h, p)
    ensures complete ==> h.loaded == h.unit && h.enabled == "disabled" && h.active == Stopped(old(h.active))
    ensures complete && p.hadBinary ==> restored
    ensures h.binary == if !restored then old(h.binary) else if p.hadBinary then old(h.preinstall) else None
    ensures h.preinstall == Left(backupGone, old(h.preinstall))
    ensures complete && p.unit.Some? ==> h.unit == p.unit
    ensures p.unit.None? ==> h.unit == None || h.unit == old(h.unit)
  {
    var neutral := Neutralize(h);
    var written, gone := true, true;
    if p.hadBinary {
      restored, h.binary := h.CopyFile(h.preinstall, h.binary);
    } else {
      restored, h.binary := h.Remove(h.binary);
    }
    backupGone, h.preinstall := h.Remove(h.preinstall);
    if p.unit.Some? {
      written := h.WriteUnit(p.unit.value);
    } else {
      gone, h.unit := h.Remove(h.unit);
    }
    var reloaded := h.Systemctl(DaemonReload);
    complete := neutral && (p.hadBinary ==> restored) && written && reloaded;
  }

  /** The enablement and activity words are put back on whatever executable and unit are loaded. */
  method RestoreState(h: Host, enabled: string, active: string) returns (complete: bool)
    requires RestorableEnabled(enabled) && RestorableActive(active)
    modifies h`loaded, h`enabled, h`active, h`failures
    ensures h.failures >= old(h.failures) + (if complete then 0 else 1)
    ensures complete ==> h.loaded == old(h.loaded) && h.enabled == enabled
    ensures complete && active == "inactive" ==> h.active == Stopped(old(h.active))
    ensures complete && active == "active" ==>
              h.binary.Some? && h.loaded.Some? && h.active == Running(h.binary.value, h.loaded.value)
  {
    EnableStepsEffect(enabled, h.State());
    complete := RunSteps(h, EnableSteps(enabled));
    if active == "active" {
      var reset := h.Systemctl(ResetFailed);
      complete := complete && reset;
    }
    var ok := h.Systemctl(ActiveStep(active));
    complete := complete && ok;
  }

  /** Puts back what was saved; a step that fails is reported and the others are still taken. */
  method Compensate(h: Host, p: Prior) returns (complete: bool, restored: bool, backupGone: bool)
    requires p.unit.Some? ==> RestorableEnabled(p.enabled) && RestorableActive(p.active)
    modifies h`binary, h`preinstall, h`unit, h`loaded, h`enabled, h`active, h`failures
    ensures h.failures >= old(h.failures) + (if complete then 0 else 1)
    ensures h.failures == old(h.failures) ==> complete && restored && Clean(h, p)
    ensures complete && p.hadBinary ==> restored
    ensures h.binary == if !restored then old(h.binary) else if p.hadBinary then old(h.preinstall) else None
    ensures h.preinstall == Left(backupGone, old(h.preinstall))
    ensures complete ==> h.loaded == h.unit
    ensures complete && p.unit.Some? ==> h.unit == p.unit && h.enabled == p.enabled
    ensures complete && p.unit.Some? && p.active == "active" ==>
              h.binary.Some? && h.active == Running(h.binary.value, p.unit.value)
    ensures complete && (p.unit.None? || p.active == "inactive") ==> h.active == Stopped(old(h.active))
    ensures complete && p.unit.None? ==> (h.unit == None || h.unit == old(h.unit)) && h.enabled == "disabled"
  {
    complete, restored, backupGone := RestoreFiles(h, p);
    if p.unit.Some? {
      var ok := RestoreState(h, p.enabled, p.active);
      complete := complete && ok;
    }
  }

  lemma QuietSteps(p: Prior)
    requires p.unit.Some? && p.active == "inactive"
    ensures Start !in ForwardSteps(p) && Restart !in ForwardSteps(p)
  {
  }

  /** The new executable, unit, enablement and activity; a service that was stopped is never started. */
  method Change(h: Host, exe: Blob, unit: string, p: Prior) returns (ok: bool, swapped: bool)
    requires p.unit.Some? ==> RestorableEnabled(p.enabled) && RestorableActive(p.active) && Word(h.active) == p.active
    modifies h`binary, h`unit, h`loaded, h`enabled, h`active, h`failures
    ensures h.failures == old(h.failures) + (if ok then 0 else 1)
    ensures h.binary == if swapped then Some(exe) else old(h.binary)
    ensures p.unit.Some? && p.active == "inactive" ==> h.active == old(h.active)
    ensures ok ==> swapped && h.unit == h.loaded == Some(unit)
    ensures ok && p.unit.Some? ==> h.enabled == p.enabled && (p.active != "inactive" ==> h.active == Running(exe, unit))
    ensures ok && p.unit.None? ==> h.enabled == "enabled"
    ensures ok && p.unit.None? ==> h.active == if old(h.active).Running? then old(h.active) else Running(exe, unit)
  {
    swapped, h.binary := h.CopyFile(Some(exe), h.binary);
    if !swapped {
      return false, false;
    }
    ok := h.WriteUnit(unit);
    if !ok {
      return;
    }
    ForwardEffect(p, h.State());
    if p.unit.Some? && p.active == "inactive" {
      QuietSteps(p);
    }
    ok := RunSteps(h, ForwardSteps(p));
  }

  // ---------------------------------------------------------------------------
  // The whole install

  predicate Managed(digest: ManagedUnit.Digest, unit: string) {
    ManagedUnit.Read(digest, unit).Ok?
  }

  /** What the non-mutating inspection decides. */
  datatype Plan = Refuse | Same | Proceed(prior: Prior)

  /** An executable in place that cannot be read is taken for absent. */
  function Inspect(digest: ManagedUnit.Digest, m: Machine, q: Request, readable: bool): Plan {
    var had := m.binary.Some? && readable;
    if !q.valid then Refuse
    else if m.unit.Some? && !(Managed(digest, m.unit.value) && RestorableEnabled(m.enabled) && RestorableActive(Word(m.active))) then Refuse
    else if q.exe == None || m.dataDir == Unsafe then Refuse
    else if m.unit == Some(q.unit) && had && m.binary == q.exe && m.dataDir == Owned then Same
    else if m.unit.Some? then Proceed(Prior(m.unit, had, m.enabled, Word(m.active)))
    else Proceed(Prior(None, had, "", ""))
  }

  /** The inspection refuses, and finds nothing to do, exactly under these conditions on the request and the machine. */
  lemma InspectMeans(digest: ManagedUnit.Digest, m: Machine, q: Request, readable: bool)
    ensures Inspect(digest, m, q, readable) == Refuse <==>
              || !q.valid || q.exe == None || m.dataDir == Unsafe
              || (m.unit.Some? && (|| ManagedUnit.Read(digest, m.unit.value).Err?
                                   || (m.enabled != "enabled" && m.enabled != "enabled-runtime" && m.enabled != "disabled")
                                   || (m.active.Down? && m.active.word != "active" && m.active.word != "inactive")))
    ensures Inspect(digest, m, q, readable) == Same <==>
              && Inspect(digest, m, q, readable) != Refuse
              && m.unit == Some(q.unit) && m.binary.Some? && readable && m.binary == q.exe && m.dataDir == Owned
  {
  }

  method Preflight(h: Host, q: Request, readable: bool) returns (plan: Plan)
    modifies h`failures
    ensures h.failures >= old(h.failures) && (plan == Refuse || plan == Inspect(h.digest, h.State(), q, readable))
    ensures h.failures == old(h.failures) ==> plan == Inspect(h.digest, h.State(), q, readable)
    ensures plan != Refuse ==> h.failures == old(h.failures)
    // on the request and the machine alone
    ensures h.failures == old(h.failures) ==> (plan == Refuse <==>
              || !q.valid || q.exe == None || h.dataDir == Unsafe
              || (h.unit.Some? && (|| ManagedUnit.Read(h.digest, h.unit.value).Err?
                                      || (h.enabled != "enabled" && h.enabled != "enabled-runtime" && h.enabled != "disabled")
                                      || (h.active.Down? && h.active.word != "active" && h.active.word != "inactive"))))
    ensures plan == Same ==> h.unit == Some(q.unit) && h.binary.Some? && readable && h.binary == q.exe && h.dataDir == Owned
  {
    InspectMeans(h.digest, h.State(), q, readable);
    if !q.valid {
      return Refuse;
    }
    var p := Prior(h.unit, h.binary.Some? && readable, "", "");
    if h.unit.Some? {
      var unit := ManagedUnit.ReadManagedUnit(h.digest, h.unit.value);
      if unit.Err? {
        return Refuse;
      }
      var known := h.Attempt();
      if !known || !RestorableEnabled(h.enabled) {
        return Refuse;
      }
      known := h.Attempt();
      if !known || !RestorableActive(Word(h.active)) {
        return Refuse;
      }
      p := p.(enabled := h.enabled, active := Word(h.active));
    }
    if q.exe == None || h.dataDir == Unsafe {
      return Refuse;
    }
    var binaryChanged := !p.hadBinary || q.exe != h.binary;
    if p.unit == Some(q.unit) && !binaryChanged && h.dataDir == Owned {
      return Same;
    }
    return Proceed(p);
  }

  /** How many steps must have failed for an outcome: one for any error, one more for an incomplete compensation. */
  function Failures(r: Outcome): nat {
    match r
    case Aborted(undo) => if undo.complete then 1 else 2
    case Unprepared => 1
    case _ => 0
  }

  /** The executable after a compensation: the old one, none where there was none, or the new one if that stayed. */
  function BinaryAfter(u: Undo, hadBinary: bool, before: Option<Blob>, exe: Blob): Option<Blob> {
    if u.restored then (if hadBinary then before else None) else if u.swapped then Some(exe) else before
  }

  /** The old executable is lost, in place and as backup, exactly when the new one stayed and the backup copy is gone. */
  lemma ExecutableLostExactly(u: Undo, before: Blob, exe: Blob)
    ensures BinaryAfter(u, true, Some(before), exe) != Some(before) && Left(u.backupGone, Some(before)) != Some(before) <==>
            u.swapped && !u.restored && u.backupGone && exe != before
  {
  }

  /** The saved copy, the change, and the compensation if a step of the change fails. */
  method Transact(h: Host, exe: Blob, unit: string, p: Prior) returns (r: Outcome)
    requires p.unit.Some? ==> RestorableEnabled(p.enabled) && RestorableActive(p.active) && Word(h.active) == p.active
    modifies h`binary, h`preinstall, h`unit, h`loaded, h`enabled, h`active, h`failures
    ensures h.failures >= old(h.failures) + Failures(r)
    ensures r.Unprepared? || r.Installed? || r.Aborted?
    ensures r == Unprepared ==> h.State() == old(h.State())
    ensures r == Installed ==> h.binary == Some(exe) && h.unit == h.loaded == Some(unit)
    ensures r == Installed && p.unit.Some? ==>
              h.enabled == p.enabled && h.active == if p.active == "inactive" then old(h.active) else Running(exe, unit)
    ensures r == Installed && p.unit.None? ==> h.enabled == "enabled"
    ensures r == Installed && p.unit.None? ==> h.active == if old(h.active).Running? then old(h.active) else Running(exe, unit)
    ensures r == Installed && h.failures == old(h.failures) ==> h.preinstall == None
    ensures r.Aborted? ==> h.binary == BinaryAfter(r.undo, p.hadBinary, old(h.binary), exe)
    ensures r.Aborted? ==> h.preinstall == Left(r.undo.backupGone, if p.hadBinary then old(h.binary) else old(h.preinstall))
    ensures r.Aborted? && r.undo.complete && p.hadBinary ==> r.undo.restored
    ensures r.Aborted? && r.undo.complete && p.unit.Some? ==>
              h.unit == h.loaded == p.unit && h.enabled == p.enabled && (p.active == "inactive" ==> h.active == Stopped(old(h.active)))
    ensures r.Aborted? && r.undo.complete && p.unit.Some? && p.active == "active" ==>
              h.binary.Some? && h.active == Running(h.binary.value, p.unit.value)
    ensures r.Aborted? && h.failures == old(h.failures) + 1 ==> r.undo.complete && r.undo.restored && Clean(h, p)
    ensures r.Aborted? && r.undo.complete && p.unit.None? ==>
              h.loaded == h.unit && h.enabled == "disabled" && (h.active == Down("inactive") || h.active == Down("failed"))
  {
    var ok: bool;
    if p.hadBinary {
      ok, h.preinstall := h.CopyFile(h.binary, h.preinstall);
      if !ok {
        return Unprepared;
      }
    }
    var swapped;
    ok, swapped := Change(h, exe, unit, p);
    if !ok {
      var complete, restored, backupGone := Compensate(h, p);
      return Aborted(Undo(complete, swapped, restored, backupGone));
    }
    var gone;
    gone, h.preinstall := h.Remove(h.preinstall);
    return Installed;
  }

  /**
   Installs or reinstalls. An incomplete rollback has lost the old executable exactly when the new
   one stayed in place and the backup copy is gone; one that cannot be read counts as absent, so it
   is not backed up, and a compensation that works removes it.
   */
  method Install(h: Host, q: Request, readable: bool) returns (r: Outcome)
    modifies h`binary, h`preinstall, h`unit, h`loaded, h`enabled, h`active, h`account, h`dataDir, h`failures
    // without a failing step the inspection decides: refusal, nothing to do, or success
    ensures h.failures >= old(h.failures) + (if r.Aborted? then (if r.undo.complete then 1 else 2) else if r == Unprepared then 1 else 0)
    ensures h.failures == old(h.failures) ==>
              (r == Refused <==> Inspect(h.digest, old(h.State()), q, readable) == Refuse)
    // a refusal and the no-op leave the machine as it is
    ensures Inspect(h.digest, old(h.State()), q, readable) == Refuse ==> r == Refused
    ensures r != Refused ==> (r == AlreadyCorrect <==> Inspect(h.digest, old(h.State()), q, readable) == Same)
    ensures r == Refused || r == AlreadyCorrect ==> h.State() == old(h.State())
    // the same on the request and the machine alone
    ensures h.failures == old(h.failures) ==> (r == Refused <==>
              || !q.valid || q.exe == None || old(h.dataDir) == Unsafe
              || (old(h.unit).Some? && (|| ManagedUnit.Read(h.digest, old(h.unit).value).Err?
                                      || (old(h.enabled) != "enabled" && old(h.enabled) != "enabled-runtime" && old(h.enabled) != "disabled")
                                      || (old(h.active).Down? && old(h.active).word != "active" && old(h.active).word != "inactive"))))
    ensures !q.valid || q.exe == None || old(h.dataDir) == Unsafe ==> r == Refused
    ensures old(h.unit).Some? && ManagedUnit.Read(h.digest, old(h.unit).value).Err? ==> r == Refused
    ensures r == AlreadyCorrect ==> h.unit == Some(q.unit) && h.binary == q.exe && q.exe.Some? && readable && h.dataDir == Owned
    ensures r != Refused && old(h.unit) == Some(q.unit) && old(h.binary) == q.exe && readable && old(h.dataDir) == Owned ==>
              r == AlreadyCorrect
    // preparation leaves the service alone
    ensures r == Unprepared || r == Repaired ==> h.State() == old(h.State()).(account := h.account, dataDir := h.dataDir)
    ensures r == Repaired ==> h.unit == Some(q.unit) && h.binary == q.exe && h.dataDir == Owned
    // success keeps enablement and activity, or establishes them on a fresh machine
    ensures r == Installed ==> h.binary == q.exe && h.unit == h.loaded == Some(q.unit) && h.dataDir == Owned && h.account
    ensures r == Installed ==> h.enabled == (if old(h.unit).Some? then old(h.enabled) else "enabled") && q.exe.Some?
    ensures r == Installed ==>
              h.active == if old(h.unit).Some? && old(h.active) == Down("inactive") then old(h.active)
                          else if old(h.unit).None? && old(h.active).Running? then old(h.active)
                          else Running(q.exe.value, q.unit)
    // a compensated failure puts everything back
    ensures r.Aborted? && r.undo.complete && old(h.binary).Some? && readable ==> r.undo.restored
    ensures r.Aborted? && r.undo.complete && old(h.unit).Some? ==>
              h.unit == h.loaded == old(h.unit) && h.enabled == old(h.enabled)
    ensures r.Aborted? && r.undo.complete && old(h.unit).Some? && old(h.active) == Down("inactive") ==> h.active == old(h.active)
    ensures r.Aborted? && r.undo.complete && old(h.unit).Some? && old(h.active) != Down("inactive") ==>
              h.binary.Some? && h.active == Running(h.binary.value, old(h.unit).value)
    ensures r.Aborted? && r.undo.complete && old(h.unit).None? ==>
              h.enabled == "disabled" && (h.active == Down("inactive") || h.active == Down("failed"))
    // the executable and its backup copy after any failure
    ensures r.Aborted? ==> q.exe.Some? && h.binary == BinaryAfter(r.undo, old(h.binary).Some? && readable, old(h.binary), q.exe.value)
    ensures r.Aborted? && old(h.binary).Some? && readable ==> h.preinstall == Left(r.undo.backupGone, old(h.binary))
    // after a single failure nothing of the attempt is left
    ensures r.Aborted? && h.failures == old(h.failures) + 1 ==> r.undo.complete && r.undo.restored && h.preinstall == None
    ensures r.Aborted? && h.failures == old(h.failures) + 1 && old(h.unit).None? ==> h.unit == None
  {
    InspectMeans(h.digest, h.State(), q, readable);
    var plan := Preflight(h, q, readable);
    match plan
    case Refuse => return Refused;
    case Same => return AlreadyCorrect;
    case Proceed(p) =>
      var prepared := h.Attempt();
      if !prepared {
        h.account, h.dataDir := *, *;
        return Unprepared;
      }
      h.account, h.dataDir := true, Owned;
      if p.unit == Some(q.unit) && p.hadBinary && q.exe == h.binary {
        return Repaired;
      }
      r := Transact(h, q.exe.value, q.unit, p);
  }

  /** Once installed with values that can be recorded, the same request finds nothing to do. */
  lemma ReinstallIsNoOp(digest: ManagedUnit.Digest, m: Machine, d: string, l: string, e: string, exe: Blob)
    requires ManagedUnit.Hex(digest) && ManagedUnit.Recordable(ManagedUnit.Meta(d, l, ManagedUnit.Bootstrap, e))
    requires m.unit == Some(ManagedUnit.Build(digest, d, l, e)) && m.binary == Some(exe) && m.dataDir == Owned
    requires RestorableEnabled(m.enabled) && RestorableActive(Word(m.active))
    ensures Inspect(digest, m, Request(true, Some(exe), ManagedUnit.Build(digest, d, l, e)), true) == Same
  {
    ManagedUnit.BootstrapRoundTrip(digest, d, l, e);
  }

  /** Likewise in the explicit form. */
  lemma ExplicitReinstallIsNoOp(digest: ManagedUnit.Digest, m: Machine, d: string, host: string, port: string, e: string, exe: Blob)
    requires ManagedUnit.Hex(digest) && d != "" && ManagedUnit.Clean(d) && ManagedUnit.Clean(e) && '%' !in e
    requires ManagedUnit.NoControl(ManagedUnit.Trim(host)) && ManagedUnit.NoControl(ManagedUnit.Trim(port))
    requires m.unit == Some(ManagedUnit.BuildExplicit(digest, d, host, port, e)) && m.binary == Some(exe) && m.dataDir == Owned
    requires RestorableEnabled(m.enabled) && RestorableActive(Word(m.active))
    ensures Inspect(digest, m, Request(true, Some(exe), ManagedUnit.BuildExplicit(digest, d, host, port, e)), true) == Same
  {
    ManagedUnit.ExplicitRoundTrip(digest, d, host, port, e);
  }

  /** The unit in place aside, nothing makes the inspection refuse. */
  predicate Otherwise(m: Machine, q: Request) {
    q.valid && q.exe.Some? && m.dataDir != Unsafe && RestorableEnabled(m.enabled) && RestorableActive(Word(m.active))
  }

  /** A refused unit makes every install refuse; an accepted one makes none refuse. */
  lemma UnitDecides(digest: ManagedUnit.Digest, m: Machine, q: Request, readable: bool)
    requires m.unit.Some?
    ensures ManagedUnit.Read(digest, m.unit.value).Err? ==> Inspect(digest, m, q, readable) == Refuse
    ensures Otherwise(m, q) ==> (Inspect(digest, m, q, readable) == Refuse <==> ManagedUnit.Read(digest, m.unit.value).Err?)
  {
  }

  /**
   After an install in the bootstrap form, the next install refuses because of the unit
   exactly when a value is blank or the environment file is not accepted.
   */
  lemma NextInstallExactly(digest: ManagedUnit.Digest, m: Machine, d: string, l: string, e: string, q: Request, readable: bool)
    requires ManagedUnit.Hex(digest) && ManagedUnit.NoControl(d) && ManagedUnit.NoControl(l)
    requires m.unit == Some(ManagedUnit.Build(digest, d, l, e)) && Otherwise(m, q)
    ensures Inspect(digest, m, q, readable) == Refuse <==>
            ManagedUnit.Trim(d) == "" || ManagedUnit.Trim(l) == "" || !UnitAcceptance.EnvAccepted(e)
  {
    UnitAcceptance.BootstrapAccepted(digest, d, l, e);
    UnitDecides(digest, m, q, readable);
  }

  /** Likewise after an install in the explicit form. */
  lemma NextExplicitExactly(digest: ManagedUnit.Digest, m: Machine, d: string, host: string, port: string, e: string,
                            q: Request, readable: bool)
    requires ManagedUnit.Hex(digest) && ManagedUnit.NoControl(d)
    requires ManagedUnit.NoControl(ManagedUnit.JoinHostPort(ManagedUnit.Trim(host), ManagedUnit.Trim(port)))
    requires m.unit == Some(ManagedUnit.BuildExplicit(digest, d, host, port, e)) && Otherwise(m, q)
    ensures Inspect(digest, m, q, readable) == Refuse <==> ManagedUnit.Trim(d) == "" || !UnitAcceptance.EnvAccepted(e)
  {
    UnitAcceptance.ExplicitAccepted(digest, d, host, port, e);
    UnitDecides(digest, m, q, readable);
  }

  /** An environment file that is not accepted locks every later install out, whatever it asks for. */
  lemma EnvFileLocksOut(digest: ManagedUnit.Digest, m: Machine, d: string, l: string, e: string, q: Request, readable: bool)
    requires ManagedUnit.Hex(digest) && ManagedUnit.NoControl(d) && ManagedUnit.NoControl(l) && !UnitAcceptance.EnvAccepted(e)
    requires m.unit == Some(ManagedUnit.Build(digest, d, l, e))
    ensures Inspect(digest, m, q, readable) == Refuse
  {
    UnitAcceptance.BootstrapAccepted(digest, d, l, e);
    UnitDecides(digest, m, q, readable);
  }

  lemma ExplicitEnvFileLocksOut(digest: ManagedUnit.Digest, m: Machine, d: string, host: string, port: string, e: string,
                                q: Request, readable: bool)
    requires ManagedUnit.Hex(digest) && ManagedUnit.NoControl(d) && !UnitAcceptance.EnvAccepted(e)
    requires ManagedUnit.NoControl(ManagedUnit.JoinHostPort(ManagedUnit.Trim(host), ManagedUnit.Trim(port)))
    requires m.unit == Some(ManagedUnit.BuildExplicit(digest, d, host, port, e))
    ensures Inspect(digest, m, q, readable) == Refuse
  {
    UnitAcceptance.ExplicitAccepted(digest, d, host, port, e);
    UnitDecides(digest, m, q, readable);
  }
}
