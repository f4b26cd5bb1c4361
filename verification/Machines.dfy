/**
 The machine the service commands act on: the files they write and the service manager,
 whose verbs can fail. A verb that fails may leave what it acts on in any condition.
 */
module Machines {
  import opened Basics
  import ManagedUnit

  /** The bytes of an executable. */
  type Blob = string

  /** A running service remembers the executable and the unit it was started from. */
  datatype Activity = Running(image: Blob, definition: string) | Down(word: string)

  function Word(a: Activity): string {
    match a
    case Running(_, _) => "active"
    case Down(w) => w
  }

  datatype DataDir = Missing | Owned | Unsafe

  /** The marker of the prior state is taken without the space around it. */
  datatype Machine = Machine(
    binary: Option<Blob>,
    preinstall: Option<Blob>,
    rollback: Option<Blob>,
    marker: Option<string>,
    failed: Option<Blob>,
    unit: Option<string>,
    loaded: Option<string>,
    enabled: string,
    active: Activity,
    account: bool,
    dataDir: DataDir)

  datatype Verb = DaemonReload | Enable | EnableRuntime | Disable | Start | Restart | Stop | ResetFailed

  /** Whether a verb can succeed at all: nothing starts without an executable and a loaded unit. */
  predicate Can(v: Verb, m: Machine) {
    v == Restart || (v == Start && m.active.Down?) ==> m.binary.Some? && m.loaded.Some?
  }

  /** What a successful verb does. Runtime enablement does not take persistent enablement away. */
  function Do(v: Verb, m: Machine): Machine
    requires Can(v, m)
  {
    match v
    case DaemonReload => m.(loaded := m.unit)
    case Enable => m.(enabled := "enabled")
    case EnableRuntime => if m.enabled == "enabled" then m else m.(enabled := "enabled-runtime")
    case Disable => m.(enabled := "disabled")
    case Start => if m.active.Running? then m else m.(active := Running(m.binary.value, m.loaded.value))
    case Restart => m.(active := Running(m.binary.value, m.loaded.value))
    case Stop => m.(active := Stopped(m.active))
    case ResetFailed => m.(active := Cleared(m.active))
  }

  /** A file after an attempt to remove it. */
  function Left<T>(gone: bool, file: Option<T>): Option<T> {
    if gone then None else file
  }

  /** Stopping a service that has failed leaves it failed. */
  function Stopped(a: Activity): Activity {
    if a == Down("failed") then a else Down("inactive")
  }

  /** Clearing the failure of a service makes it inactive. */
  function Cleared(a: Activity): Activity {
    if a == Down("failed") then Down("inactive") else a
  }

  class Host {
    const digest: ManagedUnit.Digest
    var binary: Option<Blob>
    var preinstall: Option<Blob>
    var rollback: Option<Blob>
    var marker: Option<string>
    var failed: Option<Blob>
    var unit: Option<string>
    var loaded: Option<string>
    var enabled: string
    var active: Activity
    var account: bool
    var dataDir: DataDir

    /** How many primitive steps have failed. */
    ghost var failures: nat

    constructor (digest: ManagedUnit.Digest, m: Machine)
      ensures State() == m && this.digest == digest
    {
      this.digest := digest;
      failures := 0;
      binary, preinstall, rollback, marker, failed := m.binary, m.preinstall, m.rollback, m.marker, m.failed;
      unit, loaded, enabled, active, account, dataDir := m.unit, m.loaded, m.enabled, m.active, m.account, m.dataDir;
    }

    function State(): Machine
      reads this
    {
      Machine(binary, preinstall, rollback, marker, failed, unit, loaded, enabled, active, account, dataDir)
    }

    /** One call of the service manager. */
    method Systemctl(v: Verb) returns (ok: bool)
      modifies this`loaded, this`enabled, this`active, this`failures
      ensures failures == old(failures) + (if ok then 0 else 1)
      ensures !Can(v, old(State())) ==> !ok
      ensures ok ==> Can(v, old(State())) && State() == Do(v, old(State()))
      ensures !ok && v != DaemonReload ==> loaded == old(loaded)
      ensures !ok && v !in {Enable, EnableRuntime, Disable} ==> enabled == old(enabled)
      ensures !ok && v !in {Start, Restart, Stop} ==> active == old(active)
      ensures !ok && v == Stop && old(active).Down? ==> active == old(active)
    {
      ok := *;
      if ok && Can(v, State()) {
        match v
        case DaemonReload => loaded := unit;
        case Enable => enabled := "enabled";
        case EnableRuntime => enabled := if enabled == "enabled" then enabled else "enabled-runtime";
        case Disable => enabled := "disabled";
        case Start => active := if active.Running? then active else Running(binary.value, loaded.value);
        case Restart => active := Running(binary.value, loaded.value);
        case Stop => active := Stopped(active);
        case ResetFailed => active := Cleared(active);
      } else {
        ok := false;
        failures := failures + 1;
        match v
        case DaemonReload => loaded := *;
        case Enable | EnableRuntime | Disable => enabled := *;
        case Start | Restart => active := *;
        case Stop =>
          if active.Running? {
            active := *;
          }
        case ResetFailed =>
      }
    }

    /** Replaces the unit file in place; a failure can leave any content. */
    method WriteUnit(text: string) returns (ok: bool)
      modifies this`unit, this`failures
      ensures failures == old(failures) + (if ok then 0 else 1)
      ensures ok ==> unit == Some(text)
    {
      ok := *;
      if ok {
        unit := Some(text);
      } else {
        failures := failures + 1;
        unit := *;
      }
    }

    method WriteMarker(word: string) returns (ok: bool)
      modifies this`marker, this`failures
      ensures failures == old(failures) + (if ok then 0 else 1)
      ensures ok ==> marker == Some(word)
    {
      ok := *;
      if ok {
        marker := Some(word);
      } else {
        failures := failures + 1;
        marker := *;
      }
    }

    /** The polled health of a restarted service, which may stop while it is polled. */
    method Healthy() returns (ok: bool)
      modifies this`active, this`failures
      ensures failures == old(failures) + (if ok then 0 else 1)
      ensures ok ==> active == old(active) && active.Running?
    {
      ok := *;
      if !ok || !active.Running? {
        ok := false;
        failures := failures + 1;
        active := *;
      }
    }

    /** A copy goes to a temporary file that is then renamed: the target changes entirely or not at all. */
    method CopyFile(source: Option<Blob>, target: Option<Blob>) returns (ok: bool, written: Option<Blob>)
      modifies this`failures
      ensures failures == old(failures) + (if ok then 0 else 1)
      ensures ok ==> source.Some? && written == source
      ensures !ok ==> written == target
    {
      ok := Attempt();
      if ok && source.None? {
        ok := false;
        failures := failures + 1;
      }
      written := if ok then source else target;
    }

    /** A step that only succeeds or fails. */
    method Attempt() returns (ok: bool)
      modifies this`failures
      ensures failures == old(failures) + (if ok then 0 else 1)
    {
      ok := *;
      if !ok {
        failures := failures + 1;
      }
    }

    /** A removal whose failure the caller ignores. */
    method Remove<T>(file: Option<T>) returns (gone: bool, left: Option<T>)
      modifies this`failures
      ensures failures == old(failures) + (if gone then 0 else 1)
      ensures left == Left(gone, file)
    {
      gone := Attempt();
      left := if gone then None else file;
    }
  }
}
