/**
 What a committed command does to the rows, said on the rows alone, and when it is refused.
 */
module FleetRows {
  import opened Basics
  import opened Fleet
  import opened FleetTables
  import opened FleetRestore
  import opened FleetReconcile

  ghost predicate HasGroup(t: Tables, cid: string) {
    exists i :: i in t.groups && t.groups[i].cid == cid
  }

  ghost predicate HasSite(t: Tables, cid: string) {
    exists i :: i in t.sites && t.sites[i].cid == cid
  }

  // ---------------------------------------------------------------------------
  // Refusals

  /** The error a command is refused with, if it is. */
  ghost function Refusal(t: Tables, cmd: Command): Option<Error> {
    match cmd
    case GroupPut(p) =>
      if exists i :: i in t.groups && t.groups[i].org == p.org && t.groups[i].name == p.name && t.groups[i].cid != p.cid
      then Some(GroupConflict)
      else if p.org !in t.orgs then Some(Constraint) else None
    case SitePut(p) =>
      if p.group != "" && !HasGroup(t, p.group) then Some(NoRow)
      else if !HasSite(t, p.cid) && p.org !in t.orgs then Some(Constraint) else None
    case SiteArchive(_, _, _) => None
    case SiteDelete(_) => None
    case TagsSet(cid, tags) =>
      if !HasSite(t, cid) then Some(NoRow)
      else if exists i, j :: 0 <= i < j < |tags| && tags[i] == tags[j] then Some(Constraint) else None
    case BadPayload(_, _) => Some(Malformed)
    case UnknownKind(_) => Some(Unsupported)
  }

  lemma RefusedExactly(t: Tables, cmd: Command)
    requires Constraints(t)
    ensures Materialize(t, cmd).Done? <==> Refusal(t, cmd) == None
    ensures Materialize(t, cmd).Failed? ==> Refusal(t, cmd) == Some(Materialize(t, cmd).error)
  {
    match cmd
    case SitePut(p) =>
    case TagsSet(cid, tags) => InsertTagsFromEmpty(tags);
    case _ =>
  }

  // ---------------------------------------------------------------------------
  // Effects

  /** One group row is new or has a new organization and name; a known row keeps its creation time. */
  ghost predicate GroupWritten(t: Tables, p: GroupPayload, u: Tables) {
    exists id :: (
      && id in u.groups && u == t.(groups := t.groups[id := u.groups[id]])
      && u.groups[id] == GroupRow(p.cid, p.org, p.name, if id in t.groups then t.groups[id].created else p.created)
      && (if id in t.groups then t.groups[id].cid == p.cid else !HasGroup(t, p.cid)))
  }

  /** The row a site row's group reference names. */
  ghost predicate Refers(t: Tables, groupId: Option<int>, group: string) {
    if group == "" then groupId == None
    else groupId.Some? && groupId.value in t.groups && t.groups[groupId.value].cid == group
  }

  /** A new site row has the payload's columns, no tags and fresh local rows. */
  ghost predicate SiteInserted(t: Tables, p: SitePayload, u: Tables, id: int) {
    && id in u.sites && id !in t.sites && !HasSite(t, p.cid) && Refers(t, u.sites[id].groupId, p.group)
    && u.sites[id] == SiteRow(p.cid, p.org, p.name, p.url, p.enabled, u.sites[id].groupId,
                              if p.archived then Some(p.updated) else None, p.created, p.updated)
    && u == t.(sites := t.sites[id := u.sites[id]], tags := t.tags[id := {}],
               local := t.local[id := LocalRows(p.created, "unknown",
                 map["Content-Security-Policy" := true, "Strict-Transport-Security" := true,
                     "X-Content-Type-Options" := true, "Referrer-Policy" := true])])
  }

  /** A known site row gets the payload's columns but keeps organization and creation time, its tags and its local rows. */
  ghost predicate SiteUpdated(t: Tables, p: SitePayload, u: Tables, id: int) {
    && id in u.sites && id in t.sites && t.sites[id].cid == p.cid && Refers(t, u.sites[id].groupId, p.group)
    && u.sites[id] == SiteRow(p.cid, t.sites[id].org, p.name, p.url, p.enabled, u.sites[id].groupId,
                              if p.archived then Some(p.updated) else None, t.sites[id].created, p.updated)
    && u == t.(sites := t.sites[id := u.sites[id]])
  }

  /** Only the archive time and the update time of the site change; an unknown site changes nothing. */
  ghost predicate SiteArchived(t: Tables, cid: string, archived: bool, updated: string, u: Tables) {
    if !HasSite(t, cid) then u == t
    else exists id :: (
      && id in t.sites && t.sites[id].cid == cid
      && u == t.(sites := t.sites[id := t.sites[id].(archivedAt := if archived then Some(updated) else None, updated := updated)]))
  }

  /** The site is gone with its tags and local rows; everything else is as before. */
  ghost predicate SiteDeleted(t: Tables, cid: string, u: Tables) {
    && u.orgs == t.orgs && u.groups == t.groups
    && u.tags.Keys == u.sites.Keys == u.local.Keys
    && (forall i :: i in u.sites <==> i in t.sites && t.sites[i].cid != cid)
    && (forall i :: i in u.sites ==> (
          && i in t.tags && i in t.local
          && u.sites[i] == t.sites[i] && u.tags[i] == t.tags[i] && u.local[i] == t.local[i]))
  }

  ghost predicate TagsReplaced(t: Tables, cid: string, tags: seq<string>, u: Tables) {
    exists id :: id in t.sites && t.sites[id].cid == cid && u == t.(tags := t.tags[id := set x | x in tags])
  }

  ghost predicate Means(t: Tables, cmd: Command, u: Tables) {
    match cmd
    case GroupPut(p) => GroupWritten(t, p, u)
    case SitePut(p) => exists id :: SiteInserted(t, p, u, id) || SiteUpdated(t, p, u, id)
    case SiteArchive(cid, archived, updated) => SiteArchived(t, cid, archived, updated, u)
    case SiteDelete(cid) => SiteDeleted(t, cid, u)
    case TagsSet(cid, tags) => TagsReplaced(t, cid, tags, u)
    case _ => false
  }

  lemma GroupPutMeans(t: Tables, p: GroupPayload, u: Tables)
    requires Constraints(t) && Materialize(t, GroupPut(p)) == Done(u)
    ensures GroupWritten(t, p, u)
  {
    var id := if GroupId(t, p.cid).Some? then GroupId(t, p.cid).value else NextId(t.groups.Keys);
    assert u.groups == t.groups[id := u.groups[id]];
  }

  lemma InsertMeans(t: Tables, p: SitePayload, gid: Option<int>, id: int)
    requires id == NextId(t.sites.Keys) && !HasSite(t, p.cid) && Refers(t, gid, p.group)
    ensures SiteInserted(t, p, InsertSiteRow(t, p, gid), id)
  {
  }

  lemma UpdateMeans(t: Tables, p: SitePayload, gid: Option<int>, id: int)
    requires id in t.sites && t.sites[id].cid == p.cid && Refers(t, gid, p.group)
    ensures SiteUpdated(t, p, UpdateSiteRow(t, id, p, gid), id)
  {
  }

  lemma SitePutMeans(t: Tables, p: SitePayload, u: Tables) returns (id: int)
    requires Constraints(t) && Materialize(t, SitePut(p)) == Done(u)
    ensures SiteInserted(t, p, u, id) == true || SiteUpdated(t, p, u, id) == true
  {
    var gid := ResolveGroup(t, p.group).value;
    if SiteId(t, p.cid).Some? {
      id := SiteId(t, p.cid).value;
      UpdateMeans(t, p, gid, id);
    } else {
      id := NextId(t.sites.Keys);
      InsertMeans(t, p, gid, id);
    }
  }

  lemma SiteArchiveMeans(t: Tables, cid: string, archived: bool, updated: string, u: Tables)
    requires Constraints(t) && Materialize(t, SiteArchive(cid, archived, updated)) == Done(u)
    ensures SiteArchived(t, cid, archived, updated, u)
  {
    if SiteId(t, cid).Some? {
      var id := SiteId(t, cid).value;
      assert id in t.sites && t.sites[id].cid == cid;
    }
  }

  lemma SiteDeleteMeans(t: Tables, cid: string, u: Tables)
    requires Constraints(t) && Materialize(t, SiteDelete(cid)) == Done(u)
    ensures SiteDeleted(t, cid, u)
  {
  }

  lemma TagsSetMeans(t: Tables, cid: string, tags: seq<string>, u: Tables)
    requires Constraints(t) && Materialize(t, TagsSet(cid, tags)) == Done(u)
    ensures TagsReplaced(t, cid, tags, u)
  {
    InsertTagsFromEmpty(tags);
    var id := SiteId(t, cid).value;
    assert Elements(tags) == set x | x in tags;
    assert u == t.(tags := t.tags[id := set x | x in tags]);
  }

  /** A command that is not refused does to the rows exactly what its kind says. */
  lemma MaterializeMeans(t: Tables, cmd: Command, u: Tables)
    requires Constraints(t) && Materialize(t, cmd) == Done(u)
    ensures Means(t, cmd, u) == true
  {
    match cmd
    case GroupPut(p) => GroupPutMeans(t, p, u);
    case SitePut(p) => var id := SitePutMeans(t, p, u);
    case SiteArchive(cid, archived, updated) => SiteArchiveMeans(t, cid, archived, updated, u);
    case SiteDelete(cid) => SiteDeleteMeans(t, cid, u);
    case TagsSet(cid, tags) => TagsSetMeans(t, cid, tags, u);
    case _ =>
  }

  // ---------------------------------------------------------------------------
  // Restores

  lemma {:induction false} PutGroupsListed(f: Fleet, orgs: set<int>, gs: seq<GroupPayload>, g: Fleet)
    requires PutGroups(f, orgs, gs) == Ok(g)
    ensures g.groups.Keys == f.groups.Keys + GroupKeys(gs)
    decreases |gs|
  {
    if gs != [] {
      PutGroupsListed(PutGroup(f, orgs, gs[0]).fleet, orgs, gs[1..], g);
      assert gs == [gs[0]] + gs[1..];
    }
  }

  lemma {:induction false} PutSitesListed(f: Fleet, orgs: set<int>, ss: seq<SitePayload>, g: Fleet)
    requires PutSites(f, orgs, ss) == Ok(g)
    ensures g.sites.Keys == f.sites.Keys + SiteKeys(ss) && g.groups == f.groups
    decreases |ss|
  {
    if ss != [] {
      PutSitesListed(PutSite(f, orgs, ss[0]).fleet, orgs, ss[1..], g);
      assert ss == [ss[0]] + ss[1..];
    }
  }

  lemma {:induction false} PutTagsListed(f: Fleet, orgs: set<int>, s: Snapshot, ss: seq<SitePayload>, g: Fleet)
    requires PutTags(f, orgs, s, ss) == Ok(g)
    ensures g.sites.Keys == f.sites.Keys && g.groups == f.groups
    decreases |ss|
  {
    if ss != [] {
      PutTagsListed(Run(f, orgs, TagsSet(ss[0].cid, TagsOf(s, ss[0].cid))).fleet, orgs, s, ss[1..], g);
    }
  }

  lemma FleetListed(f: Fleet, orgs: set<int>, s: Snapshot, g: Fleet)
    requires RestoreFleet(f, orgs, s) == Ok(g)
    ensures g.groups.Keys == GroupKeys(s.groups) && g.sites.Keys == SiteKeys(s.sites)
  {
    var f1 := PutGroups(f, orgs, s.groups).fleet;
    var f2 := PutSites(f1, orgs, s.sites).fleet;
    PutGroupsListed(f, orgs, s.groups, f1);
    PutSitesListed(f1, orgs, s.sites, f2);
    PutTagsListed(Kept(f2, SiteKeys(s.sites), GroupKeys(s.groups)), orgs, s, s.sites, g);
  }

  /** The tables hold the listed groups and sites and no others. */
  ghost predicate OnlyListed(s: Snapshot, u: Tables) {
    && (forall i :: i in u.groups ==> exists k :: 0 <= k < |s.groups| && s.groups[k].cid == u.groups[i].cid)
    && (forall k :: 0 <= k < |s.groups| ==> HasGroup(u, s.groups[k].cid))
    && (forall i :: i in u.sites ==> exists k :: 0 <= k < |s.sites| && s.sites[k].cid == u.sites[i].cid)
    && (forall k :: 0 <= k < |s.sites| ==> HasSite(u, s.sites[k].cid))
  }

  /** A restore that succeeds leaves the listed groups and sites, whatever was there before. */
  lemma RestoreMeans(t: Tables, s: Snapshot, u: Tables)
    requires Constraints(t) && RestoreTables(t, s) == Done(u)
    ensures OnlyListed(s, u) == true
  {
    RestoreSimulates(t, s);
    FleetListed(View(t), t.orgs, s, View(u));
    KeysListed(s, u);
  }

  lemma KeysListed(s: Snapshot, u: Tables)
    requires Constraints(u) && GroupsView(u).Keys == GroupKeys(s.groups) && SitesView(u).Keys == SiteKeys(s.sites)
    ensures OnlyListed(s, u) == true
  {
    GroupsViewShows(u);
    SitesViewShows(u);
    forall k | 0 <= k < |s.groups| ensures HasGroup(u, s.groups[k].cid) {
      assert s.groups[k].cid in GroupKeys(s.groups);
    }
    forall k | 0 <= k < |s.sites| ensures HasSite(u, s.sites[k].cid) {
      assert s.sites[k].cid in SiteKeys(s.sites);
    }
  }

  // ---------------------------------------------------------------------------
  // Snapshots, and what restoring one leaves row by row

  /** The group a site row refers to, by cluster id. */
  ghost predicate SameGroup(t: Tables, id: Option<int>, u: Tables, id': Option<int>) {
    if id.None? then id'.None?
    else id.value in t.groups && id'.Some? && id'.value in u.groups && u.groups[id'.value].cid == t.groups[id.value].cid
  }

  ghost predicate SiteRowListed(t: Tables, s: Snapshot, i: int)
    requires i in t.sites
  {
    var r := t.sites[i];
    && (exists k :: (
          && 0 <= k < |s.sites| && s.sites[k].group == (if r.groupId.Some? && r.groupId.value in t.groups then t.groups[r.groupId.value].cid else "")
          && s.sites[k] == SitePayload(r.cid, r.org, r.name, r.url, s.sites[k].group, r.enabled, r.archivedAt.Some?, r.created, r.updated)))
    && i in t.tags && t.tags[i] == if r.cid in s.tags then set x | x in s.tags[r.cid] else {}
  }

  /** A snapshot lists each group row and each site row once, with the tags, and nothing else. */
  lemma SnapshotMeans(t: Tables, s: Snapshot)
    requires Constraints(t) && Lists(s, View(t))
    ensures forall i :: i in t.groups ==> exists k :: (
              0 <= k < |s.groups| && s.groups[k] == GroupPayload(t.groups[i].cid, t.groups[i].org, t.groups[i].name, t.groups[i].created))
    ensures forall i :: i in t.sites ==> SiteRowListed(t, s, i)
    ensures forall k :: 0 <= k < |s.groups| ==> HasGroup(t, s.groups[k].cid)
    ensures forall k :: 0 <= k < |s.sites| ==> HasSite(t, s.sites[k].cid)
    ensures forall j, k :: 0 <= j < k < |s.groups| ==> s.groups[j].cid != s.groups[k].cid
    ensures forall j, k :: 0 <= j < k < |s.sites| ==> s.sites[j].cid != s.sites[k].cid
  {
    GroupsViewShows(t);
    SitesViewShows(t);
    forall i | i in t.groups
      ensures exists k :: (
                0 <= k < |s.groups| && s.groups[k] == GroupPayload(t.groups[i].cid, t.groups[i].org, t.groups[i].name, t.groups[i].created))
    {
      var k := ListedGroup(s.groups, GroupsView(t), t.groups[i].cid);
    }
    forall i | i in t.sites ensures SiteRowListed(t, s, i) {
      var k := ListedSite(s, SitesView(t), t.sites[i].cid);
    }
  }

  /**
   Row `j` of `u` is row `i` of `t` with the row's tags, except that a row that `before` had already
   keeps the organization and creation time it had.
   */
  ghost predicate SiteRestored(before: Tables, t: Tables, i: int, u: Tables, j: int) {
    && i in t.sites && j in u.sites && i in t.tags && j in u.tags && u.tags[j] == t.tags[i]
    && u.sites[j].(groupId := None, org := 0, created := "") == t.sites[i].(groupId := None, org := 0, created := "")
    && SameGroup(t, t.sites[i].groupId, u, u.sites[j].groupId)
    && (!HasSite(before, t.sites[i].cid) ==> u.sites[j].org == t.sites[i].org && u.sites[j].created == t.sites[i].created)
    && (forall k :: k in before.sites && before.sites[k].cid == t.sites[i].cid ==>
          u.sites[j].org == before.sites[k].org && u.sites[j].created == before.sites[k].created)
  }

  lemma InfosMean(before: Tables, t: Tables, i: int, u: Tables, j: int)
    requires Constraints(before) && Constraints(t) && Constraints(u) && i in t.sites && j in u.sites
    requires u.sites[j].cid == t.sites[i].cid
    requires SiteInfoAt(u, j) == ReconciledSite(View(before), t.sites[i].cid, SiteInfoAt(t, i))
    ensures SiteRestored(before, t, i, u, j) == true
  {
    SitesViewShows(before);
    if !HasSite(before, t.sites[i].cid) {
      assert t.sites[i].cid !in SiteCids(before);
    }
  }

  lemma SiteRowRestored(before: Tables, t: Tables, u: Tables, i: int) returns (j: int)
    requires Constraints(before) && Constraints(t) && Constraints(u) && View(u) == Reconciled(View(before), View(t)) && i in t.sites
    ensures SiteRestored(before, t, i, u, j)
  {
    var c := t.sites[i].cid;
    SitesViewShows(t);
    SitesViewShows(u);
    assert c in SitesView(u) && SitesView(u)[c] == ReconciledSite(View(before), c, SiteInfoAt(t, i));
    j :| j in u.sites && u.sites[j].cid == c;
    InfosMean(before, t, i, u, j);
  }

  /** Restoring the snapshot of other tables brings back each of their site rows, up to row ids. */
  lemma RestoreBringsBack(before: Tables, t: Tables, s: Snapshot, u: Tables)
    requires Constraints(before) && Constraints(t) && Lists(s, View(t)) && Coherent(View(t), before.orgs)
    requires RestoreTables(before, s) == Done(u)
    ensures forall i :: i in t.sites ==> exists j :: SiteRestored(before, t, i, u, j)
  {
    RestoreSimulates(before, s);
    RestoreFleetExact(View(before), View(t), before.orgs, s);
    forall i | i in t.sites ensures exists j :: SiteRestored(before, t, i, u, j) {
      var j := SiteRowRestored(before, t, u, i);
    }
  }
}
