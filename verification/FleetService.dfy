/** The state machine as the running node executes it, step by step and in place. */
module FleetService {
  import opened Basics
  import opened Fleet
  import opened FleetTables
  import opened FleetRestore
  import opened FleetReconcile
  import opened FleetFsm
  import opened FleetRows

  // ---------------------------------------------------------------------------
  // Deleting stale rows one at a time

  lemma DeleteSiteStep(t: Tables, u: Tables, gone: set<int>, id: int)
    requires Constraints(u) && u == WithoutSites(t, gone) && id in u.sites
    ensures DeleteSiteRow(u, u.sites[id].cid) == WithoutSites(t, gone + {id})
  {
    assert SiteId(u, u.sites[id].cid) == Some(id);
    assert (t.sites - gone) - {id} == t.sites - (gone + {id});
    assert (t.tags - gone) - {id} == t.tags - (gone + {id});
    assert (t.local - gone) - {id} == t.local - (gone + {id});
  }

  method DropSites(t: Tables, keep: set<string>) returns (u: Tables)
    requires Constraints(t)
    ensures u == KeepSites(t, keep)
  {
    var stale := StaleSites(t, keep);
    var todo := stale;
    u := t;
    while todo != {}
      invariant todo <= stale && Constraints(u)
      invariant u == WithoutSites(t, stale - todo)
      decreases |todo|
    {
      var id := Next(todo);
      DeleteSiteStep(t, u, stale - todo, id);
      u := DeleteSiteRow(u, u.sites[id].cid);
      assert stale - (todo - {id}) == (stale - todo) + {id};
      todo := todo - {id};
    }
    assert stale - {} == stale;
  }

  lemma WithoutNoGroups(t: Tables)
    ensures WithoutGroups(t, {}) == t
  {
  }

  lemma DeleteGroupStep(t: Tables, u: Tables, gone: set<int>, id: int)
    requires Constraints(u) && u == WithoutGroups(t, gone) && id in u.groups
    ensures DeleteGroupRow(u, u.groups[id].cid) == WithoutGroups(t, gone + {id})
  {
    assert GroupId(u, u.groups[id].cid) == Some(id);
    assert (t.groups - gone) - {id} == t.groups - (gone + {id});
    assert NullRefs(NullRefs(t.sites, gone), {id}) == NullRefs(t.sites, gone + {id});
  }

  method DropGroups(t: Tables, keep: set<string>) returns (u: Tables)
    requires Constraints(t)
    ensures u == KeepGroups(t, keep)
  {
    var stale := StaleGroups(t, keep);
    var todo := stale;
    u := t;
    WithoutNoGroups(t);
    assert stale - todo == {};
    while todo != {}
      invariant todo <= stale && Constraints(u) == true
      invariant u == WithoutGroups(t, stale - todo)
      decreases |todo|
    {
      var id := Next(todo);
      DeleteGroupStep(t, u, stale - todo, id);
      u := DeleteGroupRow(u, u.groups[id].cid);
      assert stale - (todo - {id}) == (stale - todo) + {id};
      todo := todo - {id};
    }
    assert stale - {} == stale;
  }

  // ---------------------------------------------------------------------------
  // The rows of a snapshot

  /** The payloads listed so far cover exactly the rows that are no longer due. */
  ghost predicate GroupsListed(t: Tables, gs: seq<GroupPayload>, todo: set<int>) {
    && todo <= t.groups.Keys
    && (forall i, j :: 0 <= i < j < |gs| ==> gs[i].cid != gs[j].cid)
    && (forall k :: 0 <= k < |gs| ==> gs[k].cid in GroupsView(t) && gs[k] == GroupRecord(gs[k].cid, GroupsView(t)[gs[k].cid]))
    && (forall k, i :: 0 <= k < |gs| && i in todo ==> gs[k].cid != t.groups[i].cid)
    && (forall i :: i in t.groups && i !in todo ==> t.groups[i].cid in GroupKeys(gs))
  }

  method ListGroups(t: Tables) returns (gs: seq<GroupPayload>)
    requires Constraints(t)
    ensures ListsGroups(gs, GroupsView(t))
  {
    gs := [];
    var todo := t.groups.Keys;
    while todo != {}
      invariant GroupsListed(t, gs, todo)
      decreases |todo|
    {
      var id := Next(todo);
      var r := t.groups[id];
      var p := GroupPayload(r.cid, r.org, r.name, r.created);
      ListGroupStep(t, gs, todo, id, p);
      gs, todo := gs + [p], todo - {id};
    }
    GroupsViewShows(t);
    assert GroupsView(t).Keys == GroupKeys(gs);
  }

  lemma ListGroupStep(t: Tables, gs: seq<GroupPayload>, todo: set<int>, id: int, p: GroupPayload)
    requires UniqueGroups(t) && GroupsListed(t, gs, todo) && id in todo
    requires p == GroupPayload(t.groups[id].cid, t.groups[id].org, t.groups[id].name, t.groups[id].created)
    ensures GroupsListed(t, gs + [p], todo - {id})
  {
    GroupsViewShows(t);
    assert GroupKeys(gs + [p]) == GroupKeys(gs) + {p.cid};
  }

  ghost predicate SitesListed(t: Tables, ss: seq<SitePayload>, todo: set<int>) {
    && todo <= t.sites.Keys
    && Distinct(ss)
    && (forall k :: 0 <= k < |ss| ==> ss[k].cid in SitesView(t) && ss[k] == SiteRecord(ss[k].cid, SitesView(t)[ss[k].cid]))
    && (forall k, i :: 0 <= k < |ss| && i in todo ==> ss[k].cid != t.sites[i].cid)
    && (forall i :: i in t.sites && i !in todo ==> t.sites[i].cid in SiteKeys(ss))
  }

  ghost predicate TagsListed(t: Tables, keys: set<string>, tags: map<string, seq<string>>) {
    && tags.Keys == keys
    && (forall c :: c in tags ==> c in SitesView(t) && NoDup(tags[c]) && Elements(tags[c]) == SitesView(t)[c].tags)
  }

  /** The tags of one site as the query returns them, each once. */
  method ListTags(have: set<string>) returns (tags: seq<string>)
    ensures NoDup(tags) && Elements(tags) == have
  {
    tags := [];
    var todo := have;
    while todo != {}
      invariant todo <= have && NoDup(tags) && Elements(tags) == have - todo
      decreases |todo|
    {
      var tag := Next(todo);
      assert tag !in Elements(tags);
      assert Elements(tags + [tag]) == Elements(tags) + {tag};
      tags, todo := tags + [tag], todo - {tag};
    }
  }

  /** The site row a payload is read from, with its group's cluster id from the join. */
  function SitePayloadAt(t: Tables, id: int): SitePayload
    requires Constraints(t) && id in t.sites
  {
    var r := t.sites[id];
    SitePayload(r.cid, r.org, r.name, r.url, if r.groupId.None? then "" else t.groups[r.groupId.value].cid,
                r.enabled, r.archivedAt.Some?, r.created, r.updated)
  }

  method ListSites(t: Tables) returns (ss: seq<SitePayload>, tags: map<string, seq<string>>)
    requires Constraints(t)
    ensures forall s: Snapshot :: s.sites == ss && s.tags == tags ==> ListsSites(s, SitesView(t))
  {
    ss, tags := [], map[];
    var todo := t.sites.Keys;
    while todo != {}
      invariant SitesListed(t, ss, todo) == true
      invariant TagsListed(t, SiteKeys(ss), tags) == true
      decreases |todo|
    {
      var id := Next(todo);
      var p := SitePayloadAt(t, id);
      var have := ListTags(t.tags[id]);
      ListSiteStep(t, ss, todo, id);
      ListTagsStep(t, SiteKeys(ss), tags, id, have);
      assert SiteKeys(ss + [p]) == SiteKeys(ss) + {p.cid};
      ss, tags, todo := ss + [p], tags[p.cid := have], todo - {id};
    }
    forall s: Snapshot | s.sites == ss && s.tags == tags ensures ListsSites(s, SitesView(t)) {
      AllSitesListed(t, s);
    }
  }

  lemma AllSitesListed(t: Tables, s: Snapshot)
    requires Constraints(t) && SitesListed(t, s.sites, {}) && TagsListed(t, SiteKeys(s.sites), s.tags)
    ensures ListsSites(s, SitesView(t))
  {
    SitesViewShows(t);
    assert SitesView(t).Keys == SiteKeys(s.sites);
  }

  lemma ListSiteStep(t: Tables, ss: seq<SitePayload>, todo: set<int>, id: int)
    requires Constraints(t) && SitesListed(t, ss, todo) && id in todo
    ensures SitesListed(t, ss + [SitePayloadAt(t, id)], todo - {id}) == true
  {
    SiteListed(t, id);
    SiteKeysSnoc(ss, SitePayloadAt(t, id));
    ListedSnoc(t, ss, todo, id, SitePayloadAt(t, id));
  }

  lemma SiteListed(t: Tables, id: int)
    requires Constraints(t) && id in t.sites
    ensures SitePayloadAt(t, id).cid == t.sites[id].cid && t.sites[id].cid in SitesView(t)
    ensures SitePayloadAt(t, id) == SiteRecord(t.sites[id].cid, SitesView(t)[t.sites[id].cid])
    ensures forall i :: i in t.sites && i != id ==> t.sites[i].cid != t.sites[id].cid
  {
    SitesViewShows(t);
  }

  lemma SiteKeysSnoc(ss: seq<SitePayload>, p: SitePayload)
    ensures SiteKeys(ss + [p]) == SiteKeys(ss) + {p.cid}
  {
  }

  lemma ListedSnoc(t: Tables, ss: seq<SitePayload>, todo: set<int>, id: int, p: SitePayload)
    requires SitesListed(t, ss, todo) && id in todo && p.cid == t.sites[id].cid && p.cid in SitesView(t)
    requires p == SiteRecord(p.cid, SitesView(t)[p.cid]) && SiteKeys(ss + [p]) == SiteKeys(ss) + {p.cid}
    requires forall i :: i in t.sites && i != id ==> t.sites[i].cid != p.cid
    ensures SitesListed(t, ss + [p], todo - {id}) == true
  {
  }

  lemma ListTagsStep(t: Tables, keys: set<string>, tags: map<string, seq<string>>, id: int, have: seq<string>)
    requires Constraints(t) && TagsListed(t, keys, tags) && id in t.sites
    requires NoDup(have) && Elements(have) == t.tags[id]
    ensures TagsListed(t, keys + {t.sites[id].cid}, tags[t.sites[id].cid := have]) == true
  {
    SitesViewShows(t);
  }

  // ---------------------------------------------------------------------------
  // The upserts of a restore, one statement group per payload

  method WriteGroups(t: Tables, gs: seq<GroupPayload>) returns (r: TxResult)
    requires Constraints(t)
    ensures r == PutGroupRows(t, gs)
  {
    var u := t;
    for i := 0 to |gs|
      invariant Constraints(u) && PutGroupRows(u, gs[i..]) == PutGroupRows(t, gs)
    {
      assert gs[i..][1..] == gs[i + 1..];
      r := PutGroupRow(u, gs[i]);
      if r.Failed? {
        return;
      }
      u := r.tables;
    }
    return Done(u);
  }

  method WriteSites(t: Tables, ss: seq<SitePayload>) returns (r: TxResult)
    requires Constraints(t)
    ensures r == PutSiteRows(t, ss)
  {
    var u := t;
    for i := 0 to |ss|
      invariant Constraints(u) && PutSiteRows(u, ss[i..]) == PutSiteRows(t, ss)
    {
      assert ss[i..][1..] == ss[i + 1..];
      r := PutSiteRow(u, ss[i]);
      if r.Failed? {
        return;
      }
      u := r.tables;
    }
    return Done(u);
  }

  method WriteTags(t: Tables, s: Snapshot) returns (r: TxResult)
    requires Constraints(t)
    ensures r == PutTagRows(t, s, s.sites)
  {
    var u := t;
    for i := 0 to |s.sites|
      invariant Constraints(u) && PutTagRows(u, s, s.sites[i..]) == PutTagRows(t, s, s.sites)
    {
      assert s.sites[i..][1..] == s.sites[i + 1..];
      r := SetTagRows(u, s.sites[i].cid, TagsOf(s, s.sites[i].cid));
      if r.Failed? {
        return;
      }
      u := r.tables;
    }
    return Done(u);
  }

  /** The transaction of a restore: nothing is kept unless every stage succeeds. */
  method Reconcile(t: Db, s: Snapshot) returns (r: TxResult)
    ensures r == RestoreTables(t, s)
    ensures r.Done? ==> OnlyListed(s, r.tables) == true
  {
    r := WriteGroups(t, s.groups);
    if r.Failed? {
      return;
    }
    r := WriteSites(r.tables, s.sites);
    if r.Failed? {
      return;
    }
    var kept := DropSites(r.tables, SiteKeys(s.sites));
    kept := DropGroups(kept, GroupKeys(s.groups));
    r := WriteTags(kept, s);
    if r.Done? {
      RestoreMeans(t, s, r.tables);
    }
  }

  // ---------------------------------------------------------------------------
  // The machine itself

  /** An operation that a node without a latched failure has not applied yet. */
  ghost predicate IsNew(e: Entry, failure: Option<Error>, applied: map<string, Command>) {
    e.Operation? && failure.None? && e.id !in applied
  }

  class Fsm {
    var tables: Db
    var saved: map<string, Command>
    var savedIndex: nat
    var savedTerm: nat
    var applied: map<string, Command>
    var index: nat
    var term: nat
    var failure: Option<Error>

    ghost function Value(): Node
      reads this
    {
      Node(tables, saved, savedIndex, savedTerm, applied, index, term, failure)
    }

    /** Opens the machine over a database: the applied operations are read back row by row. */
    constructor (db: Db, ops: map<string, Command>, lastIndex: nat, lastTerm: nat)
      ensures forall n: Node :: n.tables == db && n.saved == ops && n.savedIndex == lastIndex && n.savedTerm == lastTerm
                ==> Value() == Reload(n)
      ensures tables == db && saved == ops && savedIndex == index == lastIndex && savedTerm == term == lastTerm && failure.None?
      ensures forall id :: id in applied <==> id in ops && id != ""
      ensures forall id :: id in applied ==> applied[id] == ops[id]
    {
      tables, saved, savedIndex, savedTerm := db, ops, lastIndex, lastTerm;
      applied, index, term, failure := map[], lastIndex, lastTerm, None;
      new;
      var todo := ops.Keys;
      while todo != {}
        invariant todo <= ops.Keys
        invariant applied == map id | id in ops && id !in todo && id != "" :: ops[id]
        invariant tables == db && saved == ops && savedIndex == lastIndex && savedTerm == lastTerm
        invariant index == lastIndex && term == lastTerm && failure == None
        decreases |todo|
      {
        var id := Next(todo);
        todo := todo - {id};
        if id != "" {
          applied := applied[id := ops[id]];
        }
      }
      assert applied == ops - {""};
    }

    /** One committed entry. */
    method Apply(e: Entry) returns (r: Response)
      modifies this
      ensures (Value(), r) == FleetFsm.Apply(old(Value()), e)
      // What is refused or already done changes no row and no record.
      ensures e == Undecodable ==> r == Rejected(Undecoded) && Value() == old(Value()).(failure := failure) && failure.Some?
      ensures e != Undecodable && old(failure).Some? ==> r == Rejected(old(failure).value) && Value() == old(Value())
      ensures e == Undigestible && old(failure).None? ==> r == Rejected(NoDigest) && Value() == old(Value())
      ensures e.Operation? && old(failure).None? && e.id in old(applied) ==> Value() == old(Value()).(index := index, term := term)
      ensures e.Operation? && old(failure).None? && e.id in old(applied) ==>
                r == if old(applied)[e.id] == e.cmd then Applied(e.index, e.term, e.id) else Rejected(IdReused)
      ensures IsNew(e, old(failure), old(applied)) && Refusal(old(tables), e.cmd).Some? ==>
                r == Rejected(Refusal(old(tables), e.cmd).value) && Value() == old(Value()).(failure := failure)
                && failure == if r.error == GroupConflict then None else Some(r.error)
      // What is applied does to the rows what its kind says, and is recorded.
      ensures IsNew(e, old(failure), old(applied)) && Refusal(old(tables), e.cmd).None? ==>
                r == Applied(e.index, e.term, e.id) && Means(old(tables), e.cmd, tables) == true
                && Value() == Node(tables, old(saved)[e.id := e.cmd], e.index, e.term,
                                   old(applied)[e.id := e.cmd], e.index, e.term, None)
      ensures IsNew(e, old(failure), old(applied)) && e.cmd.SiteDelete? ==>
                r == Applied(e.index, e.term, e.id) && tables.groups == old(tables).groups
                && (forall i :: i in tables.sites <==> i in old(tables).sites && old(tables).sites[i].cid != e.cmd.cid)
      ensures IsNew(e, old(failure), old(applied)) && e.cmd.SiteDelete? ==>
                (forall i :: i in tables.sites ==> (
                   && tables.sites[i] == old(tables).sites[i] && tables.tags[i] == old(tables).tags[i]
                   && tables.local[i] == old(tables).local[i]))
    {
      match e
      case Undecodable =>
        if failure.None? {
          failure := Some(Undecoded);
        }
        return Rejected(Undecoded);
      case Undigestible =>
        return Rejected(if failure.Some? then failure.value else NoDigest);
      case Operation(at, epoch, id, cmd) =>
        if failure.Some? {
          return Rejected(failure.value);
        }
        if id in applied {
          if applied[id] != cmd {
            return Rejected(IdReused);
          }
          index, term := at, epoch;
          return Applied(at, epoch, id);
        }
        var tx := Materialize(tables, cmd);
        RefusedExactly(tables, cmd);
        if tx.Failed? {
          if tx.error != GroupConflict {
            failure := Some(tx.error);
          }
          return Rejected(tx.error);
        }
        MaterializeMeans(tables, cmd, tx.tables);
        tables, saved, savedIndex, savedTerm := tx.tables, saved[id := cmd], at, epoch;
        applied, index, term := applied[id := cmd], at, epoch;
        return Applied(at, epoch, id);
    }

    /** Reads the whole configuration without changing it. */
    method TakeSnapshot() returns (s: Snapshot)
      ensures IsSnapshot(s, Value())
      ensures s.applied == applied && s.index == index && s.term == term
      ensures forall i :: i in tables.groups ==> exists k :: (
                && 0 <= k < |s.groups|
                && s.groups[k] == GroupPayload(tables.groups[i].cid, tables.groups[i].org, tables.groups[i].name, tables.groups[i].created))
      ensures forall i :: i in tables.sites ==> SiteRowListed(tables, s, i)
      ensures forall k :: 0 <= k < |s.groups| ==> HasGroup(tables, s.groups[k].cid)
      ensures forall k :: 0 <= k < |s.sites| ==> HasSite(tables, s.sites[k].cid)
    {
      var gs := ListGroups(tables);
      var ss, tags := ListSites(tables);
      s := Snapshot(gs, ss, tags, applied, index, term);
      SnapshotMeans(tables, s);
    }

    /** Reconciles the tables with a snapshot in one transaction. */
    method RestoreFrom(s: Snapshot) returns (err: Option<Error>)
      modifies this
      ensures (Value(), err) == FleetFsm.Restore(old(Value()), s)
      ensures err.Some? ==> Value() == old(Value())
      ensures err.None? ==> OnlyListed(s, tables) == true
      ensures err.None? ==> Value() == Node(tables, s.applied, s.index, s.term, s.applied, s.index, s.term, None)
    {
      var r := Reconcile(tables, s);
      if r.Failed? {
        return Some(r.error);
      }
      Reset(r.tables, s);
      return None;
    }

    /** Moves to reconciled tables, in the database and in memory. */
    method Reset(u: Db, s: Snapshot)
      modifies this
      ensures tables == u
      ensures Value() == Node(u, s.applied, s.index, s.term, s.applied, s.index, s.term, None)
    {
      tables, saved, savedIndex, savedTerm := u, s.applied, s.index, s.term;
      applied, index, term, failure := s.applied, s.index, s.term, None;
    }
  }
}
