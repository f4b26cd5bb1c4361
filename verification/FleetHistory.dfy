/**
 Replicas over whole histories: log delivery, crashes followed by replay, and snapshots
 installed from other replicas, in any order.
 */
module FleetHistory {
  import opened Basics
  import opened Fleet
  import opened FleetTables
  import opened FleetRestore
  import opened FleetReconcile
  import opened FleetFsm

  datatype Event =
    | Deliver
    | Restart(from: nat)
    | Install(at: nat, snapshot: Snapshot)

  /** `pos` entries are delivered; the durable state reflects the first `high` ones. */
  datatype Replica = Replica(node: Node, pos: nat, high: nat)

  /** The state every run starts from, the committed log, and the minted identities. */
  datatype Cluster = Cluster(start: Core, log: seq<Entry>, reg: Registry)

  ghost predicate Good(c: Cluster) {
    Sound(c.start, c.reg) && WellFormed(c.log, c.reg)
  }

  ghost function Ref(c: Cluster, p: nat): Core
    requires p <= |c.log|
  {
    At(c.start, c.log, p)
  }

  /** The snapshot was taken by some replica that agrees with the reference run at `at`. */
  ghost predicate TakenAt(c: Cluster, at: nat, s: Snapshot)
    requires at <= |c.log|
  {
    exists n: Node :: CoreOf(n) == Ref(c, at) && IsSnapshot(s, n)
  }

  /** Raft replays from, and installs, only positions whose reference run is not latched. */
  ghost predicate Legal(c: Cluster, r: Replica, e: Event) {
    match e
    case Deliver => r.pos < |c.log|
    case Restart(from) => from <= r.pos && from <= |c.log| && Ref(c, from).failure.None?
    case Install(at, s) => at <= |c.log| && Ref(c, at).failure.None? && TakenAt(c, at, s)
  }

  ghost function Step(c: Cluster, r: Replica, e: Event): Replica
    requires Legal(c, r, e)
  {
    match e
    case Deliver => Replica(Apply(r.node, c.log[r.pos]).0, r.pos + 1, Max(r.high, r.pos + 1))
    case Restart(from) => Replica(Reload(r.node), from, r.high)
    case Install(at, s) => Replica(Restore(r.node, s).0, at, at)
  }

  /** The replica's configuration is the reference run's at `high`; its failure the one at `pos`. */
  ghost predicate Tracks(c: Cluster, r: Replica) {
    && r.pos <= r.high <= |c.log|
    && r.node.failure == Ref(c, r.pos).failure
    && CoreOf(r.node) == Ref(c, r.high).(failure := r.node.failure)
  }

  // ---------------------------------------------------------------------------
  // Replaying entries the durable state already reflects

  /** A conflict at an earlier position is still a conflict in the later configuration. */
  lemma ConflictReplayed(c: Cluster, p: nat, high: nat, cmd: Command)
    requires Good(c) && p <= high <= |c.log|
    requires Run(Ref(c, p).fleet, Ref(c, p).orgs, cmd) == Err(GroupConflict)
    ensures Run(Ref(c, high).fleet, Ref(c, high).orgs, cmd) == Err(GroupConflict)
  {
    AtSound(c.start, c.log, c.reg, p);
    AtSound(c.start, c.log, c.reg, high);
    AtGrows(c.start, c.log, c.reg, p, high);
    ConflictPersists(Ref(c, p).fleet, Ref(c, high).fleet, cmd.group, c.reg);
  }

  /** Replaying an entry below the high-water mark changes nothing but the failure of that position. */
  lemma ReplayIsNoOp(c: Cluster, p: nat, high: nat)
    requires Good(c) && p < high <= |c.log|
    ensures CoreApply(Ref(c, high).(failure := Ref(c, p).failure), c.log[p]).0 ==
            Ref(c, high).(failure := Ref(c, p + 1).failure)
  {
    var e := c.log[p];
    var a, a1, h := Ref(c, p), Ref(c, p + 1), Ref(c, high);
    AtGrows(c.start, c.log, c.reg, p, high);
    AtGrows(c.start, c.log, c.reg, p + 1, high);
    assert a1 == CoreApply(a, e).0;
    if a.failure.None? && a1.failure.None? && e.Operation? && e.id !in h.applied {
      ConflictReplayed(c, p, high, e.cmd);
    }
  }

  // ---------------------------------------------------------------------------
  // Installing snapshots

  ghost predicate NamesCompatible(f: Fleet, g: Fleet) {
    forall d, k :: d in f.groups && k in g.groups && SameName(f.groups[d], g.groups[k]) ==> d == k
  }

  /** Configurations of one log never clash by name and share their immutable columns. */
  lemma PositionsCompatible(c: Cluster, p: nat, q: nat)
    requires Good(c) && p <= |c.log| && q <= |c.log|
    ensures SameImmutables(Ref(c, p).fleet, Ref(c, q).fleet)
    ensures NamesCompatible(Ref(c, p).fleet, Ref(c, q).fleet)
  {
    AtSound(c.start, c.log, c.reg, p);
    AtSound(c.start, c.log, c.reg, q);
    if p <= q {
      AtGrows(c.start, c.log, c.reg, p, q);
    } else {
      AtGrows(c.start, c.log, c.reg, q, p);
    }
  }

  lemma CompatibleNoClash(f: Fleet, g: Fleet, gs: seq<GroupPayload>)
    requires ListsGroups(gs, g.groups) && NamesCompatible(f, g)
    ensures NoClash(f.groups, gs)
  {
    forall i | 0 <= i < |gs| ensures NoClashAt(f.groups, gs, i) {
      assert gs[i] in gs[..i + 1];
      forall d | d in f.groups && f.groups[d].org == gs[i].org && f.groups[d].name == gs[i].name
        ensures d in GroupKeys(gs[..i + 1])
      {
        assert SameName(f.groups[d], g.groups[gs[i].cid]);
      }
    }
  }

  /** Restoring over compatible tables reproduces the snapshot's configuration. */
  lemma RestoreCompatible(n: Node, s: Snapshot, g: Fleet)
    requires Lists(s, g) && Coherent(g, n.tables.orgs)
    requires NamesCompatible(View(n.tables), g) && SameImmutables(View(n.tables), g)
    ensures (CoreOf(Restore(n, s).0), Restore(n, s).1) == (Core(g, n.tables.orgs, s.applied, s.applied, None), None)
  {
    var f := View(n.tables);
    CompatibleNoClash(f, g, s.groups);
    RestoreFleetExact(f, g, n.tables.orgs, s);
    ReconciledExact(f, g);
    RestoreSimulates(n.tables, s);
  }

  /**
   A snapshot taken at any position installs on a replica at any other position, ahead or
   behind, and gives it everything of the reference run at the snapshot's position but a
   latched failure.
   */
  lemma InstallRestores(c: Cluster, n: Node, high: nat, at: nat, s: Snapshot)
    requires Good(c) && high <= |c.log| && at <= |c.log|
    requires CoreOf(n).fleet == Ref(c, high).fleet && n.tables.orgs == Ref(c, high).orgs
    requires TakenAt(c, at, s)
    ensures (CoreOf(Restore(n, s).0), Restore(n, s).1) == (Ref(c, at).(failure := None), None)
  {
    AtSound(c.start, c.log, c.reg, at);
    AtGrows(c.start, c.log, c.reg, 0, at);
    AtGrows(c.start, c.log, c.reg, 0, high);
    PositionsCompatible(c, high, at);
    RestoreCompatible(n, s, Ref(c, at).fleet);
  }

  /** The installed replica agrees with the log at that position exactly when the log is not latched there. */
  lemma InstallAgreesExactly(c: Cluster, n: Node, high: nat, at: nat, s: Snapshot)
    requires Good(c) && high <= |c.log| && at <= |c.log|
    requires CoreOf(n).fleet == Ref(c, high).fleet && n.tables.orgs == Ref(c, high).orgs
    requires TakenAt(c, at, s)
    ensures CoreOf(Restore(n, s).0) == Ref(c, at) <==> Ref(c, at).failure.None?
  {
    InstallRestores(c, n, high, at, s);
  }

  // ---------------------------------------------------------------------------
  // Whole histories

  lemma StepTracks(c: Cluster, r: Replica, e: Event)
    requires Good(c) && Tracks(c, r) && Legal(c, r, e)
    ensures Tracks(c, Step(c, r, e)) == true
  {
    match e
    case Deliver =>
      ApplyRefines(r.node, c.log[r.pos]);
      if r.pos < r.high {
        ReplayIsNoOp(c, r.pos, r.high);
      }
    case Restart(from) =>
      AtSound(c.start, c.log, c.reg, r.high);
      assert r.node.saved - {""} == r.node.saved;
    case Install(at, s) =>
      InstallRestores(c, r.node, r.high, at, s);
  }

  ghost predicate LegalHistory(c: Cluster, r: Replica, h: seq<Event>)
    decreases |h|
  {
    h == [] || (Legal(c, r, h[0]) && LegalHistory(c, Step(c, r, h[0]), h[1..]))
  }

  ghost function After(c: Cluster, r: Replica, h: seq<Event>): Replica
    requires LegalHistory(c, r, h)
    decreases |h|
  {
    if h == [] then r else After(c, Step(c, r, h[0]), h[1..])
  }

  /**
   After any legal history of deliveries, crashes with replay and snapshot installs, the
   replica holds the reference run's state at its high-water mark; caught up, it agrees
   with the reference run completely.
   */
  lemma {:induction false} HistoryTracks(c: Cluster, r: Replica, h: seq<Event>)
    requires Good(c) && Tracks(c, r) && LegalHistory(c, r, h)
    ensures Tracks(c, After(c, r, h)) == true
    ensures After(c, r, h).pos == After(c, r, h).high ==> CoreOf(After(c, r, h).node) == Ref(c, After(c, r, h).pos)
    decreases |h|
  {
    if h != [] {
      StepTracks(c, r, h[0]);
      HistoryTracks(c, Step(c, r, h[0]), h[1..]);
    }
  }

  lemma DeliverOne(c: Cluster, r: Replica, r': Replica)
    requires Good(c) && Tracks(c, r) && r.pos < |c.log| && r' == Step(c, r, Deliver)
    ensures Tracks(c, r') == true && r'.pos == r.pos + 1
    ensures RunLog(r.node, c.log[r.pos..]) == RunLog(r'.node, c.log[r'.pos..])
  {
    StepTracks(c, r, Deliver);
    assert c.log[r.pos..][0] == c.log[r.pos];
    assert c.log[r.pos..][1..] == c.log[r.pos + 1..];
  }

  /** A replica that is delivered the rest of the log ends in the reference run's final state. */
  lemma {:induction false} CatchUp(c: Cluster, r: Replica)
    requires Good(c) && Tracks(c, r)
    ensures CoreOf(RunLog(r.node, c.log[r.pos..])) == Ref(c, |c.log|)
    decreases |c.log| - r.pos
  {
    if r.pos < |c.log| {
      DeliverOne(c, r, Step(c, r, Deliver));
      CatchUp(c, Step(c, r, Deliver));
    } else {
      assert c.log[r.pos..] == [];
    }
  }

  /** Crash after `k` entries, reload, replay from the first entry: the uninterrupted result. */
  lemma RestartReplay(c: Cluster, n: Node, k: nat)
    requires Good(c) && c.start.failure.None? && k <= |c.log| && CoreOf(n) == Ref(c, k)
    ensures CoreOf(RunLog(Reload(n), c.log)) == Ref(c, |c.log|)
  {
    StepTracks(c, Replica(n, k, k), Restart(0));
    CatchUp(c, Replica(Reload(n), 0, k));
    assert c.log[0..] == c.log;
  }

  /**
   Restoring the snapshot of the first `i` entries over a replica that applied any `j`
   entries succeeds, and applying the remaining entries gives the result of the whole log.
   */
  lemma SnapshotPlusSuffix(c: Cluster, target: Node, j: nat, i: nat, s: Snapshot)
    requires Good(c) && j <= |c.log| && i <= |c.log| && CoreOf(target) == Ref(c, j)
    requires Ref(c, i).failure.None? && TakenAt(c, i, s)
    ensures Restore(target, s).1.None?
    ensures CoreOf(RunLog(Restore(target, s).0, c.log[i..])) == Ref(c, |c.log|)
  {
    InstallRestores(c, target, j, i, s);
    CatchUp(c, Replica(Restore(target, s).0, i, i));
  }

  // ---------------------------------------------------------------------------
  // Renaming a group is outside the guarantee

  const Early := Fleet(map["b" := GroupInfo(1, "X", "t1")], map[])

  const Late := Fleet(map["b" := GroupInfo(1, "Y", "t1"), "a" := GroupInfo(1, "X", "t3")], map[])

  /** Committed commands lead from one configuration to the other by renaming group "b". */
  lemma RenameReaches(orgs: set<int>)
    requires 1 in orgs
    ensures Run(Fleet(map[], map[]), orgs, GroupPut(GroupPayload("b", 1, "X", "t1"))) == Ok(Early)
    ensures var r := Run(Early, orgs, GroupPut(GroupPayload("b", 1, "Y", "t2")));
            r.Ok? && Run(r.fleet, orgs, GroupPut(GroupPayload("a", 1, "X", "t3"))) == Ok(Late)
  {
    var r := Run(Early, orgs, GroupPut(GroupPayload("b", 1, "Y", "t2")));
    assert r == Ok(Fleet(map["b" := GroupInfo(1, "Y", "t1")], map[]));
  }

  /**
   Without fixed group names restore can fail: a replica still in the first configuration
   refuses the snapshot of the second, listed in cluster-id order.
   */
  lemma RenameBreaksRestore(n: Node, s: Snapshot)
    requires View(n.tables) == Early
    requires s.groups == [GroupPayload("a", 1, "X", "t3"), GroupPayload("b", 1, "Y", "t1")] && s.sites == []
    ensures Lists(s, Late)
    ensures Restore(n, s) == (n, Some(GroupConflict))
  {
    assert s.groups[0] in s.groups && s.groups[1] in s.groups;
    assert "b" in Early.groups && NameTaken(Early, s.groups[0]);
    assert PutGroups(Early, n.tables.orgs, s.groups) == Err(GroupConflict);
    PutGroupsSimulates(n.tables, s.groups);
  }
}
