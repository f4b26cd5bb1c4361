/**
 The replicated state machine: what one log entry, a restart and a snapshot restore do to
 a node, as functions on the node's value, and the machine without row ids it refines.
 */
module FleetFsm {
  import opened Basics
  import opened Fleet
  import opened FleetTables
  import opened FleetRestore
  import opened FleetReconcile

  /**
   A committed log entry. The digest of an operation is injective in its contents, so the
   command itself stands for it.
   */
  datatype Entry =
    | Undecodable
    | Undigestible
    | Operation(index: nat, term: nat, id: string, cmd: Command)

  datatype Response = Applied(index: nat, term: nat, id: string) | Rejected(error: Error)

  const NoTables := Tables({}, map[], map[], map[], map[])

  /** Tables that satisfy the constraints of the schema. */
  type Db = t: Tables | Constraints(t) witness NoTables

  /** Tables and the saved* fields are durable; the rest lives in memory. */
  datatype Node = Node(
    tables: Db, saved: map<string, Command>, savedIndex: nat, savedTerm: nat,
    applied: map<string, Command>, index: nat, term: nat, failure: Option<Error>)

  function Blank(orgs: set<int>): Node {
    Node(NoTables.(orgs := orgs), map[], 0, 0, map[], 0, 0, None)
  }

  function Execute(n: Node, index: nat, term: nat, id: string, cmd: Command): (Node, Response) {
    match Materialize(n.tables, cmd)
    case Done(u) =>
      (Node(u, n.saved[id := cmd], index, term, n.applied[id := cmd], index, term, None), Applied(index, term, id))
    case Failed(e) =>
      (if e == GroupConflict then n else n.(failure := Some(e)), Rejected(e))
  }

  function Apply(n: Node, e: Entry): (Node, Response) {
    match e
    case Undecodable => (if n.failure.None? then n.(failure := Some(Undecoded)) else n, Rejected(Undecoded))
    case Undigestible => (n, Rejected(if n.failure.Some? then n.failure.value else NoDigest))
    case Operation(index, term, id, cmd) =>
      if n.failure.Some? then (n, Rejected(n.failure.value))
      else if id in n.applied then
        if n.applied[id] != cmd then (n, Rejected(IdReused))
        else (n.(index := index, term := term), Applied(index, term, id))
      else Execute(n, index, term, id, cmd)
  }

  /** Opening the state machine again over its durable state; an empty id is not reloaded. */
  function Reload(n: Node): Node {
    Node(n.tables, n.saved, n.savedIndex, n.savedTerm, n.saved - {""}, n.savedIndex, n.savedTerm, None)
  }

  /** Restore either replaces everything and clears the failure, or changes nothing. */
  function Restore(n: Node, s: Snapshot): (Node, Option<Error>) {
    match RestoreTables(n.tables, s)
    case Failed(e) => (n, Some(e))
    case Done(u) => (Node(u, s.applied, s.index, s.term, s.applied, s.index, s.term, None), None)
  }

  ghost predicate IsSnapshot(s: Snapshot, n: Node) {
    Lists(s, View(n.tables)) && s.applied == n.applied && s.index == n.index && s.term == n.term
  }

  // ---------------------------------------------------------------------------
  // The machine without row ids

  datatype Core = Core(
    fleet: Fleet, orgs: set<int>, saved: map<string, Command>, applied: map<string, Command>, failure: Option<Error>)

  ghost function CoreOf(n: Node): Core {
    Core(View(n.tables), n.tables.orgs, n.saved, n.applied, n.failure)
  }

  function CoreApply(a: Core, e: Entry): (Core, Response) {
    match e
    case Undecodable => (if a.failure.None? then a.(failure := Some(Undecoded)) else a, Rejected(Undecoded))
    case Undigestible => (a, Rejected(if a.failure.Some? then a.failure.value else NoDigest))
    case Operation(index, term, id, cmd) =>
      if a.failure.Some? then (a, Rejected(a.failure.value))
      else if id in a.applied then
        (a, if a.applied[id] != cmd then Rejected(IdReused) else Applied(index, term, id))
      else
        match Run(a.fleet, a.orgs, cmd)
        case Ok(f) => (Core(f, a.orgs, a.saved[id := cmd], a.applied[id := cmd], None), Applied(index, term, id))
        case Err(error) => (if error == GroupConflict then a else a.(failure := Some(error)), Rejected(error))
  }

  /** A node answers every entry as the machine without row ids does, and moves with it. */
  lemma ApplyRefines(n: Node, e: Entry)
    ensures Apply(n, e).1 == CoreApply(CoreOf(n), e).1
    ensures CoreOf(Apply(n, e).0) == CoreApply(CoreOf(n), e).0
  {
    if e.Operation? {
      MaterializeSimulates(n.tables, e.cmd);
    }
  }

  // ---------------------------------------------------------------------------
  // Determinism modulo row ids

  /** Same configuration, same applied operations, same latched failure; row ids are free. */
  ghost predicate Agree(a: Node, b: Node) {
    CoreOf(a) == CoreOf(b)
  }

  function Answers(n: Node, log: seq<Entry>): seq<Response>
    decreases |log|
  {
    if log == [] then [] else [Apply(n, log[0]).1] + Answers(Apply(n, log[0]).0, log[1..])
  }

  function RunLog(n: Node, log: seq<Entry>): Node
    decreases |log|
  {
    if log == [] then n else RunLog(Apply(n, log[0]).0, log[1..])
  }

  /** Replicas that agree answer every log alike, entry by entry, and agree afterwards. */
  lemma {:induction false} ReplicasDeterministic(a: Node, b: Node, log: seq<Entry>)
    requires Agree(a, b)
    ensures Answers(a, log) == Answers(b, log)
    ensures Agree(RunLog(a, log), RunLog(b, log))
    decreases |log|
  {
    if log != [] {
      ApplyRefines(a, log[0]);
      ApplyRefines(b, log[0]);
      ReplicasDeterministic(Apply(a, log[0]).0, Apply(b, log[0]).0, log[1..]);
    }
  }

  /** Once an operation is applied, no later entry with its id changes a table. */
  lemma {:induction false} AppliedForever(n: Node, log: seq<Entry>, e: Entry)
    requires e.Operation? && e.id in n.applied
    ensures var m := RunLog(n, log);
            e.id in m.applied && m.applied[e.id] == n.applied[e.id] && Apply(m, e).0.tables == m.tables
    decreases |log|
  {
    if log != [] {
      AppliedForever(Apply(n, log[0]).0, log[1..], e);
    }
  }

  /** A latched node ignores every entry until it is restored or restarted. */
  lemma {:induction false} LatchedForever(n: Node, log: seq<Entry>)
    requires n.failure.Some?
    ensures RunLog(n, log) == n
    decreases |log|
  {
    if log != [] {
      LatchedForever(n, log[1..]);
    }
  }

  // ---------------------------------------------------------------------------
  // The reference run of a log

  /** The machine after the first `p` entries of the log. */
  function At(a: Core, log: seq<Entry>, p: nat): Core
    requires p <= |log|
  {
    if p == 0 then a else CoreApply(At(a, log, p - 1), log[p - 1]).0
  }

  /** Entries carry non-empty ids and respect the identities of their cluster ids. */
  ghost predicate WellFormed(log: seq<Entry>, reg: Registry) {
    forall i :: 0 <= i < |log| && log[i].Operation? ==> log[i].id != "" && Conforms(log[i].cmd, reg)
  }

  ghost predicate Sound(a: Core, reg: Registry) {
    && Coherent(a.fleet, a.orgs)
    && FleetConforms(a.fleet, reg)
    && a.applied == a.saved
    && "" !in a.saved
  }

  lemma BlankSound(orgs: set<int>, reg: Registry)
    ensures Sound(CoreOf(Blank(orgs)), reg)
  {
    var t := Blank(orgs).tables;
    assert GroupCids(t) == {} && SiteCids(t) == {};
    assert View(t).groups == map[] && View(t).sites == map[];
  }

  /** Later states keep every applied operation and every group; a latched state stays put. */
  ghost predicate Grows(a: Core, b: Core) {
    && b.orgs == a.orgs
    && (forall id :: id in a.applied ==> id in b.applied && b.applied[id] == a.applied[id])
    && GroupsGrow(a.fleet, b.fleet)
    && (a.failure.Some? ==> b == a)
  }

  lemma ApplySound(a: Core, e: Entry, reg: Registry)
    requires Sound(a, reg)
    requires e.Operation? ==> e.id != "" && Conforms(e.cmd, reg)
    ensures Sound(CoreApply(a, e).0, reg)
    ensures Grows(a, CoreApply(a, e).0)
  {
    if e.Operation? {
      RunKeepsCoherent(a.fleet, a.orgs, e.cmd);
      RunKeepsConforming(a.fleet, a.orgs, e.cmd, reg);
      RunGrowsGroups(a.fleet, a.orgs, e.cmd);
    }
  }

  lemma {:induction false} AtSound(a: Core, log: seq<Entry>, reg: Registry, p: nat)
    requires Sound(a, reg) && WellFormed(log, reg) && p <= |log|
    ensures Sound(At(a, log, p), reg)
  {
    if p > 0 {
      AtSound(a, log, reg, p - 1);
      ApplySound(At(a, log, p - 1), log[p - 1], reg);
    }
  }

  lemma {:induction false} AtGrows(a: Core, log: seq<Entry>, reg: Registry, p: nat, q: nat)
    requires Sound(a, reg) && WellFormed(log, reg) && p <= q <= |log|
    ensures Grows(At(a, log, p), At(a, log, q))
    decreases q
  {
    if p < q {
      AtGrows(a, log, reg, p, q - 1);
      AtSound(a, log, reg, q - 1);
      ApplySound(At(a, log, q - 1), log[q - 1], reg);
    }
  }

  /**
   Every state a well-formed log reaches is sound: names and group references are in
   order, archive times are absent or equal to the update time, and the applied map in
   memory is the saved one.
   */
  lemma ReachableSound(orgs: set<int>, log: seq<Entry>, reg: Registry, p: nat)
    requires WellFormed(log, reg) && p <= |log|
    ensures Sound(At(CoreOf(Blank(orgs)), log, p), reg)
  {
    BlankSound(orgs, reg);
    AtSound(CoreOf(Blank(orgs)), log, reg, p);
  }

  // ---------------------------------------------------------------------------
  // Where the guarantees end

  /** Reloading loses the record of an operation exactly when its id is empty. */
  lemma ReloadExact(n: Node)
    ensures Reload(n).applied == n.saved <==> "" !in n.saved
  {
    assert "" !in n.saved ==> n.saved - {""} == n.saved;
    assert "" !in n.saved - {""};
  }

  /**
   A snapshot taken by a latched node does not carry the latch: the restored node goes on
   to apply entries the latched one ignores.
   */
  lemma LatchedSnapshotDiverges(n: Node, s: Snapshot, target: Node, index: nat, term: nat, id: string, cid: string)
    requires n.failure.Some? && IsSnapshot(s, n) && id !in n.applied
    requires Restore(target, s).1.None?
    ensures var e := Operation(index, term, id, SiteDelete(cid));
            && Apply(n, e).0 == n
            && id in Apply(Restore(target, s).0, e).0.applied
  {
  }
}
