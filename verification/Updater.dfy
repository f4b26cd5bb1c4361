/**
 Replacing the installed executable and taking the replacement back, one level deep.
 */
module Updater {
  import opened Basics
  import opened Machines
  import Installer
  import ManagedUnit

  predicate KnownWord(word: string) {
    word == "active" || word == "inactive" || word == "dead" || word == "failed"
  }

  datatype UpdateOutcome =
    | UpdateRefused                                   // before anything is written
    | Unrecorded(dropped: bool)                       // the prior state could not be recorded; was the saved copy removed?
    | Uncopied                                        // the new executable could not be put in place
    | Updated
    | Recovered(rollbackGone: bool, markerGone: bool) // the old executable is back; were the two artifacts removed?
    | Unrecovered

  datatype RollbackOutcome =
    | RollbackRefused             // before anything is renamed
    | Unrenamed
    | Undone(markerGone: bool)    // was the marker removed?
    | Unhealthy                   // the old executable is back but did not start

  /** How many ignored removals failed. */
  function Misses(gone: bool): nat {
    if gone then 0 else 1
  }

  /** What an update saves: nothing when no executable is installed, so older savings stay. */
  function Saved(m: Machine): Machine {
    if m.binary.Some? then m.(rollback := m.binary, marker := Some(Word(m.active))) else m
  }

  /** What is left when the machine with everything saved gets the new executable. */
  predicate Swapped(s: Machine, artifact: Blob, n: Machine) {
    && n == s.(binary := Some(artifact), active := n.active)
    && (Word(s.active) != "active" ==> n.active == s.active)
    && (Word(s.active) == "active" ==> n.loaded.Some? && n.active == Running(artifact, n.loaded.value))
  }

  /** After a recovery the saved executable is in place and in its saved state; what was saved is gone where its removal worked. */
  predicate RecoveredFrom(s: Machine, rollbackGone: bool, markerGone: bool, n: Machine) {
    && n == s.(binary := s.rollback, active := n.active, rollback := Left(rollbackGone, s.rollback), marker := Left(markerGone, s.marker))
    && s.rollback.Some? && s.marker.Some? && KnownWord(s.marker.value)
    && (s.marker == Some("active") ==> n.loaded.Some? && n.active == Running(n.binary.value, n.loaded.value))
    && (s.marker != Some("active") ==> n.active == Down("inactive") || n.active == Down("failed"))
  }

  predicate Replaces(s: Machine, artifact: Blob, o: UpdateOutcome, n: Machine) {
    match o
    case Uncopied => n == s
    case Updated => Swapped(s, artifact, n)
    case Recovered(rollbackGone, markerGone) => Word(s.active) == "active" && RecoveredFrom(s, rollbackGone, markerGone, n)
    case Unrecovered =>
      Word(s.active) == "active" && n == s.(binary := n.binary, active := n.active) && (n.binary == Some(artifact) || n.binary == s.rollback)
    case _ => false
  }

  predicate Updates(m: Machine, artifact: Blob, o: UpdateOutcome, n: Machine) {
    match o
    case UpdateRefused => n == m
    case Unrecorded(dropped) => m.binary.Some? && n == m.(rollback := Left(dropped, m.binary), marker := n.marker)
    case _ => Replaces(Saved(m), artifact, o, n)
  }

  predicate RollsBack(m: Machine, o: RollbackOutcome, n: Machine) {
    match o
    case RollbackRefused => n == m
    case Unrenamed =>
      && m.rollback.Some? && (n.failed == m.failed || n.failed == None || n.failed == m.binary)
      && n == m.(failed := n.failed, binary := n.binary, active := if m.marker == Some("active") then Cleared(m.active) else m.active)
      && (n.binary == m.binary || (n.binary == None && n.failed == m.binary))
    case Undone(markerGone) =>
      && m.rollback.Some? && m.marker.Some? && KnownWord(m.marker.value) && m.binary.Some?
      && n == m.(binary := m.rollback, failed := m.binary, rollback := None, marker := Left(markerGone, m.marker), active := n.active)
      && (m.marker != Some("active") ==> n.active == m.active)
      && (m.marker == Some("active") ==> n.loaded.Some? && n.active == Running(m.rollback.value, n.loaded.value))
    case Unhealthy =>
      && m.rollback.Some? && m.binary.Some? && m.marker == Some("active")
      && n == m.(binary := m.rollback, failed := m.binary, rollback := None, active := n.active)
  }

  /** Restarts, and waits for the service to be healthy. */
  method Reactivate(h: Host) returns (ok: bool)
    modifies h`active, h`loaded, h`enabled, h`failures
    ensures h.failures == old(h.failures) + (if ok then 0 else 1)
    ensures h.loaded == old(h.loaded) && h.enabled == old(h.enabled)
    ensures ok ==> h.binary.Some? && h.loaded.Some? && h.active == Running(h.binary.value, h.loaded.value)
  {
    ok := h.Systemctl(Restart);
    if !ok {
      return;
    }
    ok := h.Healthy();
  }

  /** The same after clearing the start limit. */
  method Activate(h: Host) returns (ok: bool)
    modifies h`active, h`loaded, h`enabled, h`failures
    ensures h.failures == old(h.failures) + (if ok then 0 else 1)
    ensures h.loaded == old(h.loaded) && h.enabled == old(h.enabled)
    ensures ok ==> h.binary.Some? && h.loaded.Some? && h.active == Running(h.binary.value, h.loaded.value)
  {
    ok := h.Systemctl(ResetFailed);
    if !ok {
      return;
    }
    ok := Reactivate(h);
  }

  /** Puts the saved executable back in its saved state, and consumes what was saved. */
  method Recover(h: Host) returns (ok: bool, rollbackGone: bool, markerGone: bool)
    modifies h`binary, h`rollback, h`marker, h`active, h`loaded, h`enabled, h`failures
    ensures ok ==> h.failures == old(h.failures) + Misses(rollbackGone) + Misses(markerGone)
    ensures h.failures >= old(h.failures)
    ensures !ok && old(h.rollback).Some? && old(h.marker).Some? && KnownWord(old(h.marker).value) ==> h.failures > old(h.failures)
    ensures h.loaded == old(h.loaded) && h.enabled == old(h.enabled)
    ensures ok ==> old(h.rollback).Some? && old(h.marker).Some? && KnownWord(old(h.marker).value)
    ensures ok ==> h.binary == old(h.rollback)
    ensures ok ==> h.rollback == Left(rollbackGone, old(h.rollback)) && h.marker == Left(markerGone, old(h.marker))
    ensures ok && old(h.marker) == Some("active") ==> h.loaded.Some? && h.active == Running(h.binary.value, h.loaded.value)
    ensures ok && old(h.marker) != Some("active") ==> h.active == Stopped(old(h.active))
    ensures !ok ==> h.rollback == old(h.rollback) && h.marker == old(h.marker)
    ensures !ok ==> h.binary == old(h.binary) || h.binary == h.rollback
  {
    rollbackGone, markerGone := false, false;
    var readable := h.Attempt();
    if !readable || h.marker == None || !KnownWord(h.marker.value) {
      return false, false, false;
    }
    ok := h.Systemctl(Stop);
    if !ok {
      return;
    }
    ok, h.binary := h.CopyFile(h.rollback, h.binary);
    if !ok {
      return;
    }
    if h.marker.value == "active" {
      ok := Activate(h);
      if !ok {
        return;
      }
    }
    markerGone, h.marker := h.Remove(h.marker);
    rollbackGone, h.rollback := h.Remove(h.rollback);
  }

  /** Records the executable in place and the state it is in, before either changes. */
  method Save(h: Host) returns (o: UpdateOutcome)
    modifies h`rollback, h`marker, h`failures
    ensures o.UpdateRefused? || o.Unrecorded? || o == Updated
    ensures o == Updated ==> h.failures == old(h.failures)
    ensures o == UpdateRefused ==> h.failures == old(h.failures) + 1
    ensures o.Unrecorded? ==> h.failures == old(h.failures) + 1 + Misses(o.dropped)
    ensures o == UpdateRefused ==> h.State() == old(h.State())
    ensures o.Unrecorded? ==> h.binary.Some? && h.rollback == Left(o.dropped, h.binary)
    ensures o == Updated ==> h.State() == Saved(old(h.State()))
  {
    if h.binary.Some? {
      var ok;
      ok, h.rollback := h.CopyFile(h.binary, h.rollback);
      if !ok {
        return UpdateRefused;
      }
      ok := h.WriteMarker(Word(h.active));
      if !ok {
        var dropped;
        dropped, h.rollback := h.Remove(h.rollback);
        return Unrecorded(dropped);
      }
    }
    return Updated;
  }

  /** The new executable in place, restarted if the service was running, or the way back. */
  method Replace(h: Host, artifact: Blob) returns (o: UpdateOutcome)
    modifies h`binary, h`rollback, h`marker, h`active, h`loaded, h`enabled, h`failures
    ensures o == Uncopied || o == Updated || o.Recovered? || o == Unrecovered
    ensures h.failures >= old(h.failures) && (o != Updated ==> h.failures > old(h.failures))
    ensures o.Recovered? ==> h.failures == old(h.failures) + 1 + Misses(o.rollbackGone) + Misses(o.markerGone)
    ensures o == Unrecovered && old(h.rollback).Some? && old(h.marker).Some? && KnownWord(old(h.marker).value) ==> h.failures >= old(h.failures) + 2
    ensures Replaces(old(h.State()), artifact, o, h.State()) == true
  {
    var wasActive := Word(h.active) == "active";
    var ok;
    ok, h.binary := h.CopyFile(Some(artifact), h.binary);
    if !ok {
      return Uncopied;
    }
    if !wasActive {
      return Updated;
    }
    ok := Activate(h);
    if ok {
      return Updated;
    }
    var rollbackGone, markerGone;
    ok, rollbackGone, markerGone := Recover(h);
    return if ok then Recovered(rollbackGone, markerGone) else Unrecovered;
  }

  method Swap(h: Host, artifact: Blob) returns (o: UpdateOutcome)
    modifies h`binary, h`rollback, h`marker, h`active, h`loaded, h`enabled, h`failures
    ensures h.failures >= old(h.failures) && (o != Updated ==> h.failures > old(h.failures))
    ensures o.Unrecorded? ==> h.failures == old(h.failures) + 1 + Misses(o.dropped)
    ensures o.Recovered? ==> h.failures == old(h.failures) + 1 + Misses(o.rollbackGone) + Misses(o.markerGone)
    ensures o == Unrecovered && old(h.binary).Some? && KnownWord(Word(old(h.active))) ==> h.failures >= old(h.failures) + 2
    ensures Updates(old(h.State()), artifact, o, h.State()) == true
  {
    o := Save(h);
    if o != Updated {
      return;
    }
    o := Replace(h, artifact);
  }

  function Lower(s: string): string {
    seq(|s|, i requires 0 <= i < |s| => if 'A' <= s[i] <= 'Z' then s[i] + ('a' - 'A') else s[i])
  }

  /** A checksum is accepted in either case, with space around it. */
  lemma ChecksumExactly(want: string, sum: string)
    requires sum != "" && forall k :: 0 <= k < |sum| ==> '0' <= sum[k] <= '9' || 'a' <= sum[k] <= 'f'
    ensures sum == Lower(ManagedUnit.Trim(want)) <==>
            exists i, j :: 0 <= i <= j <= |want| && |want[i..j]| == |sum|
              && (forall k :: 0 <= k < i || j <= k < |want| ==> ManagedUnit.Space(want[k]))
              && (forall k :: 0 <= k < |sum| ==> want[i..j][k] == sum[k] || ('a' <= sum[k] && want[i..j][k] == sum[k] - ' '))
  {
    if sum == Lower(ManagedUnit.Trim(want)) {
      var i, j := ManagedUnit.TrimCut(want);
      forall k | 0 <= k < |sum| ensures want[i..j][k] == sum[k] || ('a' <= sum[k] && want[i..j][k] == sum[k] - ' ') {
        assert sum[k] == Lower(want[i..j])[k];
      }
    }
    if i, j :| 0 <= i <= j <= |want| && |want[i..j]| == |sum|
              && (forall k :: 0 <= k < i || j <= k < |want| ==> ManagedUnit.Space(want[k]))
              && (forall k :: 0 <= k < |sum| ==> want[i..j][k] == sum[k] || ('a' <= sum[k] && want[i..j][k] == sum[k] - ' ')) {
      ManagedUnit.TrimExactly(want, want[i..j]);
      assert ManagedUnit.Trim(want) == want[i..j];
      assert Lower(want[i..j]) == sum;
    }
  }

  /** The checks that an update and a rollback make before acting; `allowed` stands for platform and user. */
  predicate Serves(h: Host, allowed: bool)
    reads h
  {
    allowed && h.unit.Some? && Installer.Managed(h.digest, h.unit.value)
  }

  /** Replaces the executable by an artifact whose checksum is the wanted one. */
  method Update(h: Host, allowed: bool, artifact: Blob, want: string) returns (o: UpdateOutcome)
    modifies h`binary, h`rollback, h`marker, h`active, h`loaded, h`enabled, h`failures
    ensures h.failures == old(h.failures) && old(Serves(h, allowed)) && KnownWord(Word(old(h.active))) ==>
              (h.digest(artifact) == Lower(ManagedUnit.Trim(want)) ==> o == Updated)
    ensures o == Unrecovered && old(h.binary).Some? ==> h.failures >= old(h.failures) + 2
    ensures o.Unrecorded? ==> h.failures == old(h.failures) + 1 + Misses(o.dropped)
    ensures o.Recovered? ==> h.failures == old(h.failures) + 1 + Misses(o.rollbackGone) + Misses(o.markerGone)
    ensures !old(Serves(h, allowed)) || h.digest(artifact) != Lower(ManagedUnit.Trim(want)) ==> o == UpdateRefused
    ensures !KnownWord(Word(old(h.active))) ==> o == UpdateRefused
    ensures Updates(old(h.State()), artifact, o, h.State()) == true
    // refusals, on the request, the unit text and the state word
    ensures !allowed || old(h.unit).None? || ManagedUnit.Read(h.digest, old(h.unit).value).Err? ==> o == UpdateRefused
    ensures old(h.active).Down? && old(h.active).word !in ["active", "inactive", "dead", "failed"] ==> o == UpdateRefused
    ensures o == UpdateRefused ==> h.State() == old(h.State())
    ensures o == UpdateRefused && h.failures == old(h.failures) ==>
              || !allowed || old(h.unit).None? || ManagedUnit.Read(h.digest, old(h.unit).value).Err?
              || h.digest(artifact) != Lower(ManagedUnit.Trim(want))
              || (old(h.active).Down? && old(h.active).word !in ["active", "inactive", "dead", "failed"])
    // success: the artifact is in place and what it replaced is saved, with the state it was in
    ensures o == Updated ==> h.digest(artifact) == Lower(ManagedUnit.Trim(want)) && h.binary == Some(artifact)
    ensures o == Updated && old(h.binary).Some? ==>
              h.rollback == old(h.binary) && h.marker == Some(if old(h.active).Running? then "active" else old(h.active).word)
    ensures o == Updated && old(h.binary).None? ==> h.rollback == old(h.rollback) && h.marker == old(h.marker)
    ensures o == Updated && old(h.active).Running? ==> h.loaded.Some? && h.active == Running(artifact, h.loaded.value)
    ensures o == Updated && old(h.active).Down? && old(h.active).word != "active" ==> h.active == old(h.active)
    // failures: the executable stays, is back, or is the artifact
    ensures o == Uncopied || o.Unrecorded? ==> h.binary == old(h.binary) && h.active == old(h.active)
    ensures o == Unrecovered ==> h.binary == Some(artifact) || h.binary == if old(h.binary).Some? then old(h.binary) else old(h.rollback)
    ensures o.Recovered? && old(h.binary).Some? ==> h.binary == old(h.binary) && old(h.active) != Down("inactive")
    ensures o.Recovered? && old(h.binary).Some? ==> h.loaded.Some? && h.active == Running(old(h.binary).value, h.loaded.value)
  {
    if !Serves(h, allowed) || h.digest(artifact) != Lower(ManagedUnit.Trim(want)) {
      return UpdateRefused;
    }
    var known := h.Attempt();
    if !known || !KnownWord(Word(h.active)) {
      return UpdateRefused;
    }
    o := Swap(h, artifact);
  }

  /** The executable in place goes to the failed file and the saved one takes its place. */
  method Rename(h: Host) returns (ok: bool)
    requires h.rollback.Some?
    modifies h`binary, h`rollback, h`failed, h`failures
    ensures h.failures >= old(h.failures) && (!ok && old(h.binary).Some? ==> h.failures > old(h.failures))
    ensures ok ==> old(h.binary).Some? && h.binary == old(h.rollback) && h.rollback == None && h.failed == old(h.binary)
    ensures !ok ==> h.rollback == old(h.rollback) && (h.failed == None || h.failed == old(h.failed) || h.failed == old(h.binary))
    ensures !ok ==> h.binary == old(h.binary) || (h.binary == None && h.failed == old(h.binary))
    ensures !ok && h.failures <= old(h.failures) + 1 && old(h.binary).Some? ==> h.binary == old(h.binary) && h.failed == None
  {
    var gone;
    gone, h.failed := h.Remove(h.failed);
    var renamed := h.Attempt();
    if !renamed || h.binary == None {
      return false;
    }
    h.failed, h.binary := h.binary, None;
    renamed := h.Attempt();
    if !renamed {
      renamed := h.Attempt();
      if renamed {
        h.binary, h.failed := h.failed, None;
      }
      return false;
    }
    h.binary, h.rollback := h.rollback, None;
    return true;
  }

  method Undo(h: Host) returns (o: RollbackOutcome)
    requires h.rollback.Some? && h.marker.Some? && KnownWord(h.marker.value)
    modifies h`binary, h`rollback, h`marker, h`failed, h`active, h`loaded, h`enabled, h`failures
    ensures h.failures >= old(h.failures) && (h.failures == old(h.failures) && old(h.binary).Some? ==> o == Undone(true))
    ensures o == RollbackRefused || (o.Undone? && !o.markerGone) ==> h.failures > old(h.failures)
    ensures RollsBack(old(h.State()), o, h.State()) == true
  {
    var wasActive := h.marker.value == "active";
    if wasActive {
      var reset := h.Systemctl(ResetFailed);
      if !reset {
        return RollbackRefused;
      }
    }
    var ok := Rename(h);
    if !ok {
      return Unrenamed;
    }
    if wasActive {
      ok := Reactivate(h);
      if !ok {
        return Unhealthy;
      }
    }
    var markerGone;
    markerGone, h.marker := h.Remove(h.marker);
    return Undone(markerGone);
  }

  method Rollback(h: Host, allowed: bool) returns (o: RollbackOutcome)
    modifies h`binary, h`rollback, h`marker, h`failed, h`active, h`loaded, h`enabled, h`failures
    ensures h.failures == old(h.failures) && old(Serves(h, allowed)) && old(h.binary).Some? && old(h.rollback).Some? ==>
              (old(h.marker).Some? && KnownWord(old(h.marker).value) ==> o == Undone(true))
    ensures o.Undone? && !o.markerGone ==> h.failures > old(h.failures)
    ensures !old(Serves(h, allowed)) || old(h.rollback) == None || old(h.marker) == None ==> o == RollbackRefused
    ensures RollsBack(old(h.State()), o, h.State()) == true
    // refusals, on the unit text and what is saved
    ensures !allowed || old(h.unit).None? || ManagedUnit.Read(h.digest, old(h.unit).value).Err? ==> o == RollbackRefused
    ensures old(h.marker).Some? && old(h.marker).value !in ["active", "inactive", "dead", "failed"] ==> o == RollbackRefused
    ensures o == RollbackRefused ==> h.State() == old(h.State())
    ensures o == RollbackRefused && h.failures == old(h.failures) ==>
              || !allowed || old(h.unit).None? || ManagedUnit.Read(h.digest, old(h.unit).value).Err?
              || old(h.rollback).None? || old(h.marker).None? || old(h.marker).value !in ["active", "inactive", "dead", "failed"]
    // success: the saved executable is in place and used up, in its saved state
    ensures o.Undone? ==> old(h.rollback).Some? && h.binary == old(h.rollback) && h.failed == old(h.binary) && h.rollback == None
    ensures o.Undone? && old(h.marker) == Some("active") ==> h.loaded.Some? && h.active == Running(old(h.rollback).value, h.loaded.value)
    ensures o.Undone? && old(h.marker) != Some("active") ==> h.active == old(h.active)
    ensures o.Undone? && h.failures == old(h.failures) ==> h.marker == None
    // failures: the executable stays, is in the failed file, or was exchanged and did not start
    ensures o == Unrenamed ==> h.rollback == old(h.rollback) && (h.binary == old(h.binary) || (h.binary == None && h.failed == old(h.binary)))
    ensures o == Unhealthy ==> h.binary == old(h.rollback) && h.failed == old(h.binary)
  {
    var readable := h.Attempt();
    if !Serves(h, allowed) || h.rollback == None || !readable || h.marker == None || !KnownWord(h.marker.value) {
      return RollbackRefused;
    }
    o := Undo(h);
  }

  // ---------------------------------------------------------------------------
  // Runs of commands

  /** A command and how it ended; `Other` is whatever leaves the saved executable and marker alone. */
  datatype Action = Updating(artifact: Blob, outcome: UpdateOutcome) | RollingBack(undo: RollbackOutcome) | Other

  predicate Step(m: Machine, a: Action, n: Machine) {
    match a
    case Updating(artifact, o) => Updates(m, artifact, o, n)
    case RollingBack(o) => RollsBack(m, o, n)
    case Other => n.rollback == m.rollback && n.marker == m.marker
  }

  /** The machine before, between and after the commands of a run. */
  predicate Run(ms: seq<Machine>, acts: seq<Action>) {
    && |ms| == |acts| + 1
    && forall i :: 0 <= i < |acts| ==> Step(ms[i], acts[i], ms[i + 1])
  }

  /** The latest update that got as far as saving the executable in place. */
  function LastSave(ms: seq<Machine>, acts: seq<Action>, n: nat): Option<nat>
    requires n <= |acts| < |ms|
  {
    if n == 0 then None
    else if acts[n - 1].Updating? && acts[n - 1].outcome != UpdateRefused && ms[n - 1].binary.Some? then Some(n - 1)
    else LastSave(ms, acts, n - 1)
  }

  /** What machine `m` has saved is the executable and the state of machine `s`. */
  predicate Keeps(m: Machine, s: Machine, recorded: bool) {
    && m.rollback == s.binary
    && (recorded ==> m.marker == None || m.marker == Some(Word(s.active)))
  }

  lemma StepKeeps(m: Machine, a: Action, n: Machine, s: Machine, recorded: bool)
    requires Step(m, a, n) && Keeps(m, s, recorded) && n.rollback.Some?
    requires a.Updating? && a.outcome != UpdateRefused ==> m.binary.None?
    ensures Keeps(n, s, recorded)
  {
  }

  lemma StepSaves(m: Machine, a: Action, n: Machine)
    requires Step(m, a, n) && a.Updating? && a.outcome != UpdateRefused && m.binary.Some? && n.rollback.Some?
    ensures Keeps(n, m, !a.outcome.Unrecorded?)
  {
  }

  /** A step that saves nothing leaves the saved executable, or removes it. */
  lemma StepLeaves(m: Machine, a: Action, n: Machine)
    requires Step(m, a, n) && n.rollback.Some?
    requires a.Updating? && a.outcome != UpdateRefused ==> m.binary.None?
    ensures n.rollback == m.rollback
  {
  }

  /**
   In every run, a saved executable is the one that the latest saving update found, with the
   state it found; if none saved, it is the one saved at the start.
   */
  lemma {:induction false} SavedExactly(ms: seq<Machine>, acts: seq<Action>, n: nat)
    requires Run(ms, acts) && n <= |acts| && ms[n].rollback.Some?
    ensures LastSave(ms, acts, n).None? ==> ms[n].rollback == ms[0].rollback
    ensures LastSave(ms, acts, n).Some? ==>
              var i := LastSave(ms, acts, n).value;
              i < n && acts[i].Updating? && ms[i].binary.Some? && Keeps(ms[n], ms[i], !acts[i].outcome.Unrecorded?)
  {
    if n > 0 {
      var a := acts[n - 1];
      assert Step(ms[n - 1], a, ms[n - 1 + 1]);
      if a.Updating? && a.outcome != UpdateRefused && ms[n - 1].binary.Some? {
        StepSaves(ms[n - 1], a, ms[n]);
      } else {
        StepLeaves(ms[n - 1], a, ms[n]);
        SavedExactly(ms, acts, n - 1);
        if LastSave(ms, acts, n - 1).Some? {
          var i := LastSave(ms, acts, n - 1).value;
          StepKeeps(ms[n - 1], a, ms[n], ms[i], !acts[i].outcome.Unrecorded?);
        }
      }
    }
  }

  /**
   In every run, a successful rollback puts back exactly the executable in force when the
   latest saving update began and, where that update recorded it, a service that was running
   runs that executable again.
   */
  lemma RollbackExact(ms: seq<Machine>, acts: seq<Action>, n: nat, i: nat)
    requires Run(ms, acts) && n < |acts| && acts[n].RollingBack? && acts[n].undo.Undone? && LastSave(ms, acts, n) == Some(i)
    ensures i < n && acts[i].Updating?
    ensures ms[n + 1].binary == ms[i].binary && ms[n + 1].binary.Some? && ms[n + 1].failed == ms[n].binary
    ensures !acts[i].outcome.Unrecorded? && Word(ms[i].active) == "active" ==>
              ms[n + 1].loaded.Some? && ms[n + 1].active == Running(ms[i].binary.value, ms[n + 1].loaded.value)
    ensures !acts[i].outcome.Unrecorded? && Word(ms[i].active) != "active" ==> ms[n + 1].active == ms[n].active
  {
    assert Step(ms[n], acts[n], ms[n + 1]);
    SavedExactly(ms, acts, n);
  }

  /**
   The running state is the recorded one exactly when the recorded service was running, or the
   service has not been started or stopped otherwise since: a rollback to a stopped state leaves
   the service as it finds it.
   */
  lemma RollbackStateExactly(ms: seq<Machine>, acts: seq<Action>, n: nat, i: nat)
    requires Run(ms, acts) && n < |acts| && acts[n].RollingBack? && acts[n].undo.Undone? && LastSave(ms, acts, n) == Some(i)
    requires i < n && acts[i].Updating? && !acts[i].outcome.Unrecorded?
    ensures Word(ms[n + 1].active) == Word(ms[i].active) <==>
            Word(ms[i].active) == "active" || Word(ms[n].active) == Word(ms[i].active)
  {
    RollbackExact(ms, acts, n, i);
  }

  /** A stopped machine is updated, its service is started, and the update is rolled back. */
  function StartedSince(m: Machine, artifact: Blob): (seq<Machine>, seq<Action>)
    requires m.binary.Some? && m.loaded.Some?
  {
    var m1 := Saved(m).(binary := Some(artifact));
    var m2 := m1.(active := Running(artifact, m.loaded.value));
    var m3 := m2.(binary := m.binary, failed := Some(artifact), rollback := None, marker := None);
    ([m, m1, m2, m3], [Updating(artifact, Updated), Other, RollingBack(Undone(true))])
  }

  /** The service then goes on running the executable that was rolled back, although it was recorded as stopped. */
  lemma RollbackLeavesRunning(m: Machine, artifact: Blob)
    requires m.binary.Some? && m.loaded.Some? && KnownWord(Word(m.active)) && Word(m.active) != "active"
    ensures var (ms, acts) := StartedSince(m, artifact);
            Run(ms, acts) && LastSave(ms, acts, 2) == Some(0) && ms[3].binary == m.binary
            && ms[3].active == Running(artifact, m.loaded.value) && Word(ms[3].active) != Word(m.active)
  {
    var (ms, acts) := StartedSince(m, artifact);
    assert Step(ms[0], acts[0], ms[1]);
    assert Step(ms[1], acts[1], ms[2]);
    assert Step(ms[2], acts[2], ms[3]);
    assert LastSave(ms, acts, 1) == Some(0);
  }

  /** Right after an update, the rollback restores what that update replaced, or tried to replace. */
  lemma RollbackUndoesUpdate(ms: seq<Machine>, acts: seq<Action>, n: nat)
    requires Run(ms, acts) && 0 < n < |acts| && acts[n].RollingBack? && acts[n].undo.Undone?
    requires acts[n - 1].Updating? && acts[n - 1].outcome != UpdateRefused && ms[n - 1].binary.Some?
    ensures ms[n + 1].binary == ms[n - 1].binary
    ensures acts[n - 1].outcome == Updated ==> ms[n].binary == Some(acts[n - 1].artifact) && ms[n + 1].failed == ms[n].binary
    ensures acts[n - 1].outcome == Updated ==> Word(ms[n + 1].active) == Word(ms[n - 1].active)
    ensures acts[n - 1].outcome == Uncopied ==> ms[n + 1].binary == ms[n].binary
  {
    RollbackExact(ms, acts, n, n - 1);
    assert Step(ms[n - 1], acts[n - 1], ms[n - 1 + 1]);
  }

  /** After any sequence of successful updates, the rollback restores the last artifact but one. */
  lemma RollbackIsOneLevel(ms: seq<Machine>, acts: seq<Action>, from: nat, n: nat)
    requires Run(ms, acts) && from < n < |acts| && acts[n].RollingBack? && acts[n].undo.Undone? && ms[from].binary.Some?
    requires forall i :: from <= i < n ==> acts[i].Updating? && acts[i].outcome == Updated
    ensures ms[n + 1].binary == if n == from + 1 then ms[from].binary else Some(acts[n - 2].artifact)
  {
    if n > from + 1 {
      assert Step(ms[n - 2], acts[n - 2], ms[n - 2 + 1]);
    }
    RollbackUndoesUpdate(ms, acts, n);
  }

  /** A rollback right after a successful one is refused and changes nothing. */
  lemma SecondRollbackRefused(ms: seq<Machine>, acts: seq<Action>, n: nat)
    requires Run(ms, acts) && n + 1 < |acts| && acts[n].RollingBack? && acts[n].undo.Undone? && acts[n + 1].RollingBack?
    ensures acts[n + 1] == RollingBack(RollbackRefused) && ms[n + 2] == ms[n + 1]
  {
    assert Step(ms[n], acts[n], ms[n + 1]) && Step(ms[n + 1], acts[n + 1], ms[n + 1 + 1]);
  }

  /**
   A failed update that recovered leaves the old executable running and has consumed both
   artifacts, except where their removal failed.
   */
  lemma RecoveryRestores(ms: seq<Machine>, acts: seq<Action>, n: nat)
    requires Run(ms, acts) && n < |acts| && acts[n].Updating? && acts[n].outcome.Recovered? && ms[n].binary.Some?
    ensures ms[n + 1].binary == ms[n].binary && ms[n + 1].loaded == ms[n].loaded && ms[n + 1].loaded.Some?
    ensures ms[n + 1].active == Running(ms[n].binary.value, ms[n].loaded.value) && ms[n + 1].enabled == ms[n].enabled
    ensures ms[n + 1].rollback == Left(acts[n].outcome.rollbackGone, ms[n].binary)
    ensures ms[n + 1].marker == Left(acts[n].outcome.markerGone, Some("active"))
  {
    assert Step(ms[n], acts[n], ms[n + 1]);
  }

  /** So a rollback right after it is refused, or, if neither artifact went away, puts the same executable back. */
  lemma RollbackAfterRecovery(ms: seq<Machine>, acts: seq<Action>, n: nat)
    requires Run(ms, acts) && n + 1 < |acts| && acts[n].Updating? && acts[n].outcome.Recovered? && ms[n].binary.Some?
    requires acts[n + 1].RollingBack?
    ensures acts[n].outcome.rollbackGone ==> acts[n + 1] == RollingBack(RollbackRefused) && ms[n + 2] == ms[n + 1]
    ensures acts[n + 1].undo.Undone? ==> acts[n].outcome == Recovered(false, false) && ms[n + 2].binary == ms[n].binary
  {
    RecoveryRestores(ms, acts, n);
    assert Step(ms[n + 1], acts[n + 1], ms[n + 1 + 1]);
  }
}
