/**
 Snapshot contents and restore by in-place reconciliation: upsert every group and site
 of the snapshot, delete what the snapshot does not mention, then rewrite the tags.
 */
module FleetRestore {
  import opened Basics
  import opened Fleet
  import opened FleetTables

  datatype Snapshot = Snapshot(
    groups: seq<GroupPayload>, sites: seq<SitePayload>, tags: map<string, seq<string>>,
    applied: map<string, Command>, index: nat, term: nat)

  function TagsOf(s: Snapshot, cid: string): seq<string> {
    if cid in s.tags then s.tags[cid] else []
  }

  function GroupKeys(gs: seq<GroupPayload>): set<string> {
    set g | g in gs :: g.cid
  }

  function SiteKeys(ss: seq<SitePayload>): set<string> {
    set p | p in ss :: p.cid
  }

  // ---------------------------------------------------------------------------
  // Restore on the tables, stage by stage

  function PutGroupRows(t: Tables, gs: seq<GroupPayload>): (r: TxResult)
    requires Constraints(t)
    ensures r.Done? ==> Constraints(r.tables)
    decreases |gs|
  {
    if gs == [] then Done(t)
    else
      match PutGroupRow(t, gs[0])
      case Failed(e) => Failed(e)
      case Done(u) => PutGroupRows(u, gs[1..])
  }

  function PutSiteRows(t: Tables, ss: seq<SitePayload>): (r: TxResult)
    requires Constraints(t)
    ensures r.Done? ==> Constraints(r.tables)
    decreases |ss|
  {
    if ss == [] then Done(t)
    else
      match PutSiteRow(t, ss[0])
      case Failed(e) => Failed(e)
      case Done(u) => PutSiteRows(u, ss[1..])
  }

  function StaleSites(t: Tables, keep: set<string>): set<int> {
    set i | i in t.sites && t.sites[i].cid !in keep
  }

  function StaleGroups(t: Tables, keep: set<string>): set<int> {
    set i | i in t.groups && t.groups[i].cid !in keep
  }

  /** The tables without the given site rows and what hangs off them. */
  function WithoutSites(t: Tables, gone: set<int>): Tables {
    t.(sites := t.sites - gone, tags := t.tags - gone, local := t.local - gone)
  }

  /** The sites left when every site outside `keep` is deleted, with its dependent rows. */
  function KeepSites(t: Tables, keep: set<string>): (u: Tables)
    requires Constraints(t)
    ensures Constraints(u)
  {
    WithoutSites(t, StaleSites(t, keep))
  }

  /** The tables without the given group rows; references to those are nulled. */
  function WithoutGroups(t: Tables, gone: set<int>): Tables {
    t.(groups := t.groups - gone, sites := NullRefs(t.sites, gone))
  }

  /** The groups left when every group outside `keep` is deleted; references to those are nulled. */
  function KeepGroups(t: Tables, keep: set<string>): (u: Tables)
    requires Constraints(t)
    ensures Constraints(u)
  {
    WithoutGroups(t, StaleGroups(t, keep))
  }

  function PutTagRows(t: Tables, s: Snapshot, ss: seq<SitePayload>): (r: TxResult)
    requires Constraints(t)
    ensures r.Done? ==> Constraints(r.tables)
    decreases |ss|
  {
    if ss == [] then Done(t)
    else
      match SetTagRows(t, ss[0].cid, TagsOf(s, ss[0].cid))
      case Failed(e) => Failed(e)
      case Done(u) => PutTagRows(u, s, ss[1..])
  }

  function RestoreTables(t: Tables, s: Snapshot): (r: TxResult)
    requires Constraints(t)
    ensures r.Done? ==> Constraints(r.tables)
  {
    match PutGroupRows(t, s.groups)
    case Failed(e) => Failed(e)
    case Done(t1) =>
      match PutSiteRows(t1, s.sites)
      case Failed(e) => Failed(e)
      case Done(t2) => PutTagRows(KeepGroups(KeepSites(t2, SiteKeys(s.sites)), GroupKeys(s.groups)), s, s.sites)
  }

  // ---------------------------------------------------------------------------
  // The same stages on the view

  function PutGroups(f: Fleet, orgs: set<int>, gs: seq<GroupPayload>): Outcome
    decreases |gs|
  {
    if gs == [] then Ok(f)
    else
      match PutGroup(f, orgs, gs[0])
      case Err(e) => Err(e)
      case Ok(g) => PutGroups(g, orgs, gs[1..])
  }

  function PutSites(f: Fleet, orgs: set<int>, ss: seq<SitePayload>): Outcome
    decreases |ss|
  {
    if ss == [] then Ok(f)
    else
      match PutSite(f, orgs, ss[0])
      case Err(e) => Err(e)
      case Ok(g) => PutSites(g, orgs, ss[1..])
  }

  ghost function Only<V>(m: map<string, V>, keep: set<string>): map<string, V> {
    map c | c in m && c in keep :: m[c]
  }

  /** Sites whose group is not kept lose the reference. */
  ghost function Detach(m: map<string, SiteInfo>, keep: set<string>): map<string, SiteInfo> {
    map c | c in m :: Detached(m[c], keep)
  }

  ghost function Detached(info: SiteInfo, keep: set<string>): SiteInfo {
    if info.group in keep then info else info.(group := "")
  }

  ghost function Kept(f: Fleet, sites: set<string>, groups: set<string>): Fleet {
    Fleet(Only(f.groups, groups), Detach(Only(f.sites, sites), groups))
  }

  function PutTags(f: Fleet, orgs: set<int>, s: Snapshot, ss: seq<SitePayload>): Outcome
    decreases |ss|
  {
    if ss == [] then Ok(f)
    else
      match Run(f, orgs, TagsSet(ss[0].cid, TagsOf(s, ss[0].cid)))
      case Err(e) => Err(e)
      case Ok(g) => PutTags(g, orgs, s, ss[1..])
  }

  ghost function RestoreFleet(f: Fleet, orgs: set<int>, s: Snapshot): Outcome {
    match PutGroups(f, orgs, s.groups)
    case Err(e) => Err(e)
    case Ok(f1) =>
      match PutSites(f1, orgs, s.sites)
      case Err(e) => Err(e)
      case Ok(f2) => PutTags(Kept(f2, SiteKeys(s.sites), GroupKeys(s.groups)), orgs, s, s.sites)
  }

  lemma {:induction false} PutGroupsSimulates(t: Tables, gs: seq<GroupPayload>)
    requires Constraints(t)
    ensures Simulates(t, PutGroupRows(t, gs), PutGroups(View(t), t.orgs, gs)) == true
    decreases |gs|
  {
    if gs != [] {
      PutGroupSimulates(t, gs[0]);
      match PutGroupRow(t, gs[0])
      case Failed(e) =>
      case Done(u) => PutGroupsSimulates(u, gs[1..]);
    }
  }

  lemma {:induction false} PutSitesSimulates(t: Tables, ss: seq<SitePayload>)
    requires Constraints(t)
    ensures Simulates(t, PutSiteRows(t, ss), PutSites(View(t), t.orgs, ss)) == true
    decreases |ss|
  {
    if ss != [] {
      PutSiteSimulates(t, ss[0]);
      match PutSiteRow(t, ss[0])
      case Failed(e) =>
      case Done(u) => PutSitesSimulates(u, ss[1..]);
    }
  }

  lemma {:induction false} PutTagsSimulates(t: Tables, s: Snapshot, ss: seq<SitePayload>)
    requires Constraints(t)
    ensures Simulates(t, PutTagRows(t, s, ss), PutTags(View(t), t.orgs, s, ss)) == true
    decreases |ss|
  {
    if ss != [] {
      SetTagsSimulates(t, ss[0].cid, TagsOf(s, ss[0].cid));
      match SetTagRows(t, ss[0].cid, TagsOf(s, ss[0].cid))
      case Failed(e) =>
      case Done(u) => PutTagsSimulates(u, s, ss[1..]);
    }
  }

  lemma KeepSitesView(t: Tables, keep: set<string>)
    requires Constraints(t)
    ensures GroupsView(KeepSites(t, keep)) == GroupsView(t)
    ensures SitesView(KeepSites(t, keep)) == Only(SitesView(t), keep)
  {
    var u := KeepSites(t, keep);
    SameGroups(t, u);
    SitesViewShows(t);
    var m := Only(SitesView(t), keep);
    assert SiteCids(u) == SiteCids(t) * keep by {
      forall c | c in SiteCids(t) && c in keep ensures c in SiteCids(u) {
        var i :| i in t.sites && t.sites[i].cid == c;
        assert u.sites[i].cid == c;
      }
    }
    SitesViewIs(u, m);
  }

  lemma KeepGroupsView(t: Tables, keep: set<string>)
    requires Constraints(t)
    ensures GroupsView(KeepGroups(t, keep)) == Only(GroupsView(t), keep)
  {
    var u := KeepGroups(t, keep);
    GroupsViewShows(t);
    var m := Only(GroupsView(t), keep);
    assert GroupCids(u) == GroupCids(t) * keep by {
      forall c | c in GroupCids(t) && c in keep ensures c in GroupCids(u) {
        var i :| i in t.groups && t.groups[i].cid == c;
        assert u.groups[i].cid == c;
      }
    }
    GroupsViewIs(u, m);
  }

  lemma KeepGroupsSite(t: Tables, keep: set<string>, i: int)
    requires Constraints(t) && i in t.sites
    ensures SiteInfoAt(KeepGroups(t, keep), i) == Detached(SiteInfoAt(t, i), keep)
  {
    var u := KeepGroups(t, keep);
    var ref := t.sites[i].groupId;
    if ref.Some? {
      assert GroupRef(u, u.sites[i].groupId) == if t.groups[ref.value].cid in keep then t.groups[ref.value].cid else "";
    }
  }

  lemma DetachedView(t: Tables, u: Tables, keep: set<string>)
    requires UniqueSites(t) && u.sites.Keys == t.sites.Keys
    requires forall i :: i in t.sites ==> u.sites[i].cid == t.sites[i].cid
    requires forall i :: i in t.sites ==> SiteInfoAt(u, i) == Detached(SiteInfoAt(t, i), keep)
    ensures SitesView(u) == Detach(SitesView(t), keep)
  {
    SitesViewShows(t);
    assert SiteCids(u) == SiteCids(t) by {
      forall i | i in t.sites ensures t.sites[i].cid in SiteCids(u) {
        assert u.sites[i].cid == t.sites[i].cid;
      }
    }
    SitesViewIs(u, Detach(SitesView(t), keep));
  }

  lemma KeepGroupsSites(t: Tables, keep: set<string>)
    requires Constraints(t)
    ensures SitesView(KeepGroups(t, keep)) == Detach(SitesView(t), keep)
  {
    forall i | i in t.sites ensures SiteInfoAt(KeepGroups(t, keep), i) == Detached(SiteInfoAt(t, i), keep) {
      KeepGroupsSite(t, keep, i);
    }
    DetachedView(t, KeepGroups(t, keep), keep);
  }

  lemma KeptView(t: Tables, sites: set<string>, groups: set<string>)
    requires Constraints(t)
    ensures View(KeepGroups(KeepSites(t, sites), groups)) == Kept(View(t), sites, groups)
  {
    KeepSitesView(t, sites);
    KeepGroupsView(KeepSites(t, sites), groups);
    KeepGroupsSites(KeepSites(t, sites), groups);
  }

  /** Restoring the tables restores the view. */
  lemma RestoreSimulates(t: Tables, s: Snapshot)
    requires Constraints(t)
    ensures Simulates(t, RestoreTables(t, s), RestoreFleet(View(t), t.orgs, s)) == true
  {
    PutGroupsSimulates(t, s.groups);
    match PutGroupRows(t, s.groups)
    case Failed(_) =>
    case Done(t1) =>
      PutSitesSimulates(t1, s.sites);
      match PutSiteRows(t1, s.sites)
      case Failed(_) =>
      case Done(t2) =>
        KeptView(t2, SiteKeys(s.sites), GroupKeys(s.groups));
        PutTagsSimulates(KeepGroups(KeepSites(t2, SiteKeys(s.sites)), GroupKeys(s.groups)), s, s.sites);
  }

  // ---------------------------------------------------------------------------
  // Row ids and node-local rows survive

  /** Group rows of `t` keep their id and cluster id in `u`. */
  ghost predicate GroupRowsStay(t: Tables, u: Tables) {
    forall i :: i in t.groups ==> i in u.groups && u.groups[i].cid == t.groups[i].cid
  }

  /** Site rows of `t` keep their id, cluster id and node-local rows in `u`. */
  ghost predicate SiteRowsStay(t: Tables, u: Tables) {
    forall i :: i in t.sites && i in t.local ==>
      i in u.sites && u.sites[i].cid == t.sites[i].cid && i in u.local && u.local[i] == t.local[i]
  }

  lemma {:induction false} PutGroupsKeepRows(t: Tables, gs: seq<GroupPayload>)
    requires Constraints(t) && PutGroupRows(t, gs).Done?
    ensures GroupRowsStay(t, PutGroupRows(t, gs).tables) == true
    ensures PutGroupRows(t, gs).tables.sites == t.sites && PutGroupRows(t, gs).tables.local == t.local
    decreases |gs|
  {
    if gs != [] {
      PutGroupKeepsRows(t, gs[0], PutGroupRow(t, gs[0]));
      PutGroupsKeepRows(PutGroupRow(t, gs[0]).tables, gs[1..]);
    }
  }

  lemma PutGroupKeepsRows(t: Tables, p: GroupPayload, r: TxResult)
    requires Constraints(t) && r == PutGroupRow(t, p) && r.Done?
    ensures GroupRowsStay(t, r.tables) && r.tables.sites == t.sites && r.tables.local == t.local
  {
  }

  lemma PutSiteKeepsRows(t: Tables, p: SitePayload)
    requires Constraints(t) && PutSiteRow(t, p).Done?
    ensures SiteRowsStay(t, PutSiteRow(t, p).tables) == true
    ensures PutSiteRow(t, p).tables.groups == t.groups
    ensures PutSiteRow(t, p).tables.local.Keys >= t.local.Keys
  {
  }

  lemma {:induction false} PutSitesKeepRows(t: Tables, ss: seq<SitePayload>)
    requires Constraints(t) && PutSiteRows(t, ss).Done?
    ensures SiteRowsStay(t, PutSiteRows(t, ss).tables) == true
    ensures PutSiteRows(t, ss).tables.groups == t.groups
    decreases |ss|
  {
    if ss != [] {
      PutSiteKeepsRows(t, ss[0]);
      PutSitesKeepRows(PutSiteRow(t, ss[0]).tables, ss[1..]);
    }
  }

  lemma {:induction false} PutTagsKeepRows(t: Tables, s: Snapshot, ss: seq<SitePayload>)
    requires Constraints(t) && PutTagRows(t, s, ss).Done?
    ensures PutTagRows(t, s, ss).tables == t.(tags := PutTagRows(t, s, ss).tables.tags)
    decreases |ss|
  {
    if ss != [] {
      PutTagsKeepRows(SetTagRows(t, ss[0].cid, TagsOf(s, ss[0].cid)).tables, s, ss[1..]);
    }
  }

  /** Whatever is listed by the snapshot and was there before is still under its id, with its local rows. */
  ghost predicate RowsKept(t: Tables, s: Snapshot, u: Tables) {
    && (forall i :: i in t.groups && t.groups[i].cid in GroupKeys(s.groups) ==>
          i in u.groups && u.groups[i].cid == t.groups[i].cid)
    && (forall i :: i in t.sites && t.sites[i].cid in SiteKeys(s.sites) ==>
          i in u.sites && u.sites[i].cid == t.sites[i].cid && i in u.local && i in t.local && u.local[i] == t.local[i])
  }

  /**
   A restore keeps the numeric id of every cluster id present before and in the snapshot,
   and the node-local rows of those sites.
   */
  lemma RestoreKeepsRows(t: Tables, s: Snapshot)
    requires Constraints(t) && RestoreTables(t, s).Done?
    ensures RowsKept(t, s, RestoreTables(t, s).tables) == true
  {
    PutGroupsKeepRows(t, s.groups);
    var t1 := PutGroupRows(t, s.groups).tables;
    PutSitesKeepRows(t1, s.sites);
    var t2 := PutSiteRows(t1, s.sites).tables;
    var t3 := KeepGroups(KeepSites(t2, SiteKeys(s.sites)), GroupKeys(s.groups));
    PutTagsKeepRows(t3, s, s.sites);
    KeptRowsStay(t2, SiteKeys(s.sites), GroupKeys(s.groups), t3);
  }

  /** Deleting what is not kept leaves the kept rows under their ids, with their local rows. */
  lemma KeptRowsStay(t: Tables, sites: set<string>, groups: set<string>, u: Tables)
    requires Constraints(t) && u == KeepGroups(KeepSites(t, sites), groups)
    ensures forall i :: i in t.groups && t.groups[i].cid in groups ==> i in u.groups && u.groups[i] == t.groups[i]
    ensures forall i :: i in t.sites && t.sites[i].cid in sites ==>
              i in u.sites && u.sites[i].cid == t.sites[i].cid && i in u.local && u.local[i] == t.local[i]
  {
  }
}
