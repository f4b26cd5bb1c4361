/**
 The node-local SQL tables behind the fleet configuration. Rows are keyed by numeric
 ids that differ between nodes; `View` forgets them.
 */
module FleetTables {
  import opened Basics
  import opened Fleet

  datatype GroupRow = GroupRow(cid: string, org: int, name: string, created: string)

  datatype SiteRow = SiteRow(
    cid: string, org: int, name: string, url: string, enabled: bool, groupId: Option<int>,
    archivedAt: Option<string>, created: string, updated: string)

  /** Node-local rows hanging off a site: its monitor, health and header expectations. */
  datatype LocalRows = LocalRows(since: string, health: string, required: map<string, bool>)

  datatype Tables = Tables(
    orgs: set<int>,
    groups: map<int, GroupRow>,
    sites: map<int, SiteRow>,
    tags: map<int, set<string>>,
    local: map<int, LocalRows>)

  datatype TxResult = Done(tables: Tables) | Failed(error: Error)

  const RequiredHeaders: map<string, bool> :=
    map["Content-Security-Policy" := true, "Strict-Transport-Security" := true,
        "X-Content-Type-Options" := true, "Referrer-Policy" := true]

  predicate SameRowName(a: GroupRow, b: GroupRow) {
    a.org == b.org && a.name == b.name
  }

  ghost predicate UniqueGroups(t: Tables) {
    forall i, j :: i in t.groups && j in t.groups && t.groups[i].cid == t.groups[j].cid ==> i == j
  }

  ghost predicate UniqueSites(t: Tables) {
    forall i, j :: i in t.sites && j in t.sites && t.sites[i].cid == t.sites[j].cid ==> i == j
  }

  ghost predicate GroupConstraints(t: Tables) {
    && UniqueGroups(t)
    && (forall i, j :: i in t.groups && j in t.groups && SameRowName(t.groups[i], t.groups[j]) ==> i == j)
    && (forall i :: i in t.groups ==> t.groups[i].org in t.orgs)
  }

  ghost predicate SiteConstraints(t: Tables) {
    && UniqueSites(t)
    && (forall i :: i in t.sites ==>
          && t.sites[i].org in t.orgs
          && (t.sites[i].groupId.Some? ==>
                t.sites[i].groupId.value in t.groups && t.groups[t.sites[i].groupId.value].cid != ""))
    && t.tags.Keys == t.sites.Keys
    && t.local.Keys == t.sites.Keys
  }

  /** The unique indexes and foreign keys of the migrations. */
  ghost predicate Constraints(t: Tables) {
    GroupConstraints(t) && SiteConstraints(t)
  }

  // ---------------------------------------------------------------------------
  // Row lookup and row ids

  function GroupId(t: Tables, cid: string): (r: Option<int>)
    requires Constraints(t)
    ensures r.Some? ==> r.value in t.groups && t.groups[r.value].cid == cid
    ensures r.None? ==> forall i :: i in t.groups ==> t.groups[i].cid != cid
  {
    if exists i :: i in t.groups && t.groups[i].cid == cid then
      var i :| i in t.groups && t.groups[i].cid == cid;
      Some(i)
    else None
  }

  function SiteId(t: Tables, cid: string): (r: Option<int>)
    requires Constraints(t)
    ensures r.Some? ==> r.value in t.sites && t.sites[r.value].cid == cid
    ensures r.None? ==> forall i :: i in t.sites ==> t.sites[i].cid != cid
  {
    if exists i :: i in t.sites && t.sites[i].cid == cid then
      var i :| i in t.sites && t.sites[i].cid == cid;
      Some(i)
    else None
  }

  lemma {:induction false} MaxExists(s: set<int>, x: int)
    requires x in s
    ensures exists m :: m in s && forall y :: y in s ==> y <= m
    decreases s
  {
    if y :| y in s && y > x {
      var rest := s - {x};
      MaxExists(rest, y);
      var m :| m in rest && forall z :: z in rest ==> z <= m;
      assert forall z :: z in s ==> z == x || z in rest;
      assert y in rest;
      assert m in s && forall z :: z in s ==> z <= m;
    } else {
      assert x in s && forall y :: y in s ==> y <= x;
    }
  }

  /** A new row gets an id above every id in the table. */
  function NextId(ids: set<int>): (id: int)
    ensures id !in ids
  {
    if ids == {} then 1
    else
      assert exists m :: m in ids && forall x :: x in ids ==> x <= m by {
        var x := Pick(ids);
        MaxExists(ids, x);
      }
      var m :| m in ids && forall x :: x in ids ==> x <= m;
      m + 1
  }

  // ---------------------------------------------------------------------------
  // Statements of a transaction

  function PutGroupRow(t: Tables, p: GroupPayload): (r: TxResult)
    requires Constraints(t)
    ensures r.Done? ==> Constraints(r.tables)
  {
    if exists i :: i in t.groups && t.groups[i].org == p.org && t.groups[i].name == p.name && t.groups[i].cid != p.cid then
      Failed(GroupConflict)
    else if p.org !in t.orgs then Failed(Constraint)
    else
      match GroupId(t, p.cid)
      case None =>
        Done(t.(groups := t.groups[NextId(t.groups.Keys) := GroupRow(p.cid, p.org, p.name, p.created)]))
      case Some(id) =>
        Done(t.(groups := t.groups[id := t.groups[id].(org := p.org, name := p.name)]))
  }

  /** The row id a payload's group stands for: `Some(None)` for no group, `None` for an unknown one. */
  function ResolveGroup(t: Tables, group: string): (r: Option<Option<int>>)
    requires Constraints(t)
    ensures r.Some? && r.value.Some? ==> r.value.value in t.groups && t.groups[r.value.value].cid == group
    ensures r.Some? && r.value.None? ==> group == ""
    ensures r.Some? && r.value.Some? ==> group != ""
    ensures r.None? ==> group != "" && forall i :: i in t.groups ==> t.groups[i].cid != group
  {
    if group == "" then Some(None)
    else
      match GroupId(t, group)
      case None => None
      case Some(id) => Some(Some(id))
  }

  function InsertSiteRow(t: Tables, p: SitePayload, gid: Option<int>): (u: Tables) {
    var id := NextId(t.sites.Keys);
    t.(sites := t.sites[id := SiteRow(p.cid, p.org, p.name, p.url, p.enabled, gid,
                                      ArchiveStamp(p.archived, p.updated), p.created, p.updated)],
       tags := t.tags[id := {}],
       local := t.local[id := LocalRows(p.created, "unknown", RequiredHeaders)])
  }

  function UpdateSiteRow(t: Tables, id: int, p: SitePayload, gid: Option<int>): (u: Tables)
    requires id in t.sites
  {
    t.(sites := t.sites[id := t.sites[id].(name := p.name, url := p.url, enabled := p.enabled, groupId := gid,
                                           archivedAt := ArchiveStamp(p.archived, p.updated), updated := p.updated)])
  }

  function PutSiteRow(t: Tables, p: SitePayload): (r: TxResult)
    requires Constraints(t)
    ensures r.Done? ==> Constraints(r.tables)
  {
    match ResolveGroup(t, p.group)
    case None => Failed(NoRow)
    case Some(gid) =>
      match SiteId(t, p.cid)
      case None => if p.org !in t.orgs then Failed(Constraint) else Done(InsertSiteRow(t, p, gid))
      case Some(id) => Done(UpdateSiteRow(t, id, p, gid))
  }

  /** Inserting the tags one by one, each subject to the (site, tag) primary key. */
  function InsertTags(have: set<string>, tags: seq<string>): Option<set<string>>
    decreases |tags|
  {
    if tags == [] then Some(have)
    else if tags[0] in have then None
    else InsertTags(have + {tags[0]}, tags[1..])
  }

  function DeleteSiteRow(t: Tables, cid: string): (r: Tables)
    requires Constraints(t)
    ensures Constraints(r)
  {
    match SiteId(t, cid)
    case None => t
    case Some(id) => t.(sites := t.sites - {id}, tags := t.tags - {id}, local := t.local - {id})
  }

  /** ON DELETE SET NULL: references to deleted groups become null. */
  function NullRefs(m: map<int, SiteRow>, gone: set<int>): map<int, SiteRow> {
    map i | i in m :: if m[i].groupId.Some? && m[i].groupId.value in gone then m[i].(groupId := None) else m[i]
  }

  function DeleteGroupRow(t: Tables, cid: string): (r: Tables)
    requires Constraints(t)
    ensures Constraints(r)
  {
    match GroupId(t, cid)
    case None => t
    case Some(id) =>
      t.(groups := t.groups - {id}, sites := NullRefs(t.sites, {id}))
  }

  function SetTagRows(t: Tables, cid: string, tags: seq<string>): (r: TxResult)
    requires Constraints(t)
    ensures r.Done? ==> Constraints(r.tables)
  {
    match SiteId(t, cid)
    case None => Failed(NoRow)
    case Some(id) =>
      match InsertTags({}, tags)
      case None => Failed(Constraint)
      case Some(have) => Done(t.(tags := t.tags[id := have]))
  }

  /** One operation inside its transaction: the new tables, or the error that aborts it. */
  function Materialize(t: Tables, cmd: Command): (r: TxResult)
    requires Constraints(t)
    ensures r.Done? ==> Constraints(r.tables)
  {
    match cmd
    case GroupPut(p) => PutGroupRow(t, p)
    case SitePut(p) => PutSiteRow(t, p)
    case SiteArchive(cid, archived, updated) =>
      (match SiteId(t, cid)
       case None => Done(t)
       case Some(id) =>
         Done(t.(sites := t.sites[id := t.sites[id].(archivedAt := ArchiveStamp(archived, updated), updated := updated)])))
    case SiteDelete(cid) => Done(DeleteSiteRow(t, cid))
    case TagsSet(cid, tags) => SetTagRows(t, cid, tags)
    case BadPayload(_, _) => Failed(Malformed)
    case UnknownKind(_) => Failed(Unsupported)
  }

  // ---------------------------------------------------------------------------
  // The view that forgets row ids

  ghost function GroupCids(t: Tables): set<string> {
    set i | i in t.groups :: t.groups[i].cid
  }

  ghost function SiteCids(t: Tables): set<string> {
    set i | i in t.sites :: t.sites[i].cid
  }

  ghost function GroupInfoAt(t: Tables, i: int): GroupInfo
    requires i in t.groups
  {
    GroupInfo(t.groups[i].org, t.groups[i].name, t.groups[i].created)
  }

  ghost function SiteInfoAt(t: Tables, i: int): SiteInfo
    requires i in t.sites
  {
    var s := t.sites[i];
    SiteInfo(s.org, s.name, s.url, GroupRef(t, s.groupId), s.enabled,
             s.archivedAt, s.created, s.updated, if i in t.tags then t.tags[i] else {})
  }

  /** The cluster id a group reference stands for, "" when there is none. */
  ghost function GroupRef(t: Tables, groupId: Option<int>): string {
    if groupId.Some? && groupId.value in t.groups then t.groups[groupId.value].cid else ""
  }

  ghost function GroupsView(t: Tables): map<string, GroupInfo> {
    map c | c in GroupCids(t) :: var i :| i in t.groups && t.groups[i].cid == c; GroupInfoAt(t, i)
  }

  ghost function SitesView(t: Tables): map<string, SiteInfo> {
    map c | c in SiteCids(t) :: var i :| i in t.sites && t.sites[i].cid == c; SiteInfoAt(t, i)
  }

  ghost function View(t: Tables): Fleet {
    Fleet(GroupsView(t), SitesView(t))
  }

  ghost predicate ShowsGroups(t: Tables, m: map<string, GroupInfo>) {
    && m.Keys == GroupCids(t)
    && (forall i :: i in t.groups ==> t.groups[i].cid in m && m[t.groups[i].cid] == GroupInfoAt(t, i))
  }

  ghost predicate ShowsSites(t: Tables, m: map<string, SiteInfo>) {
    && m.Keys == SiteCids(t)
    && (forall i :: i in t.sites ==> t.sites[i].cid in m && m[t.sites[i].cid] == SiteInfoAt(t, i))
  }

  lemma GroupsViewShows(t: Tables)
    requires UniqueGroups(t)
    ensures ShowsGroups(t, GroupsView(t))
  {
    forall i | i in t.groups ensures t.groups[i].cid in GroupsView(t) {
      assert t.groups[i].cid in GroupCids(t);
    }
  }

  lemma SitesViewShows(t: Tables)
    requires UniqueSites(t)
    ensures ShowsSites(t, SitesView(t))
  {
    forall i | i in t.sites ensures t.sites[i].cid in SitesView(t) {
      assert t.sites[i].cid in SiteCids(t);
    }
  }

  lemma GroupsViewIs(t: Tables, m: map<string, GroupInfo>)
    requires UniqueGroups(t) && ShowsGroups(t, m)
    ensures GroupsView(t) == m
  {
    GroupsViewShows(t);
    forall c | c in m ensures GroupsView(t)[c] == m[c] {
      var i :| i in t.groups && t.groups[i].cid == c;
    }
  }

  lemma SitesViewIs(t: Tables, m: map<string, SiteInfo>)
    requires UniqueSites(t) && ShowsSites(t, m)
    ensures SitesView(t) == m
  {
    SitesViewShows(t);
    forall c | c in m ensures SitesView(t)[c] == m[c] {
      var i :| i in t.sites && t.sites[i].cid == c;
    }
  }

  lemma GroupIdShown(t: Tables, c: string)
    requires Constraints(t)
    ensures GroupId(t, c).Some? <==> c in GroupsView(t)
    ensures c in GroupsView(t) ==> GroupsView(t)[c] == GroupInfoAt(t, GroupId(t, c).value)
  {
    GroupsViewShows(t);
    if c in GroupsView(t) {
      var i :| i in t.groups && t.groups[i].cid == c;
    }
  }

  lemma SiteIdShown(t: Tables, c: string)
    requires Constraints(t)
    ensures SiteId(t, c).Some? <==> c in SitesView(t)
    ensures c in SitesView(t) ==> SitesView(t)[c] == SiteInfoAt(t, SiteId(t, c).value)
  {
    SitesViewShows(t);
    if c in SitesView(t) {
      var i :| i in t.sites && t.sites[i].cid == c;
    }
  }

  // ---------------------------------------------------------------------------
  // What single writes do to the view

  lemma WriteSite(t: Tables, u: Tables, id: int, r: SiteRow)
    requires UniqueSites(t) && UniqueSites(u)
    requires u.groups == t.groups && u.sites == t.sites[id := r]
    requires forall i :: i in t.sites && i != id ==> SiteInfoAt(u, i).tags == SiteInfoAt(t, i).tags
    requires id in t.sites ==> t.sites[id].cid == r.cid
    ensures SitesView(u) == SitesView(t)[r.cid := SiteInfoAt(u, id)]
  {
    SitesViewShows(t);
    assert u.sites[id].cid == r.cid;
    assert SiteCids(u) == SiteCids(t) + {r.cid} by {
      forall i | i in t.sites ensures t.sites[i].cid in SiteCids(u) {
        assert u.sites[i].cid == t.sites[i].cid;
      }
    }
    forall i | i in u.sites && i != id ensures SiteInfoAt(u, i) == SiteInfoAt(t, i) && u.sites[i].cid != r.cid {}
    SitesViewIs(u, SitesView(t)[r.cid := SiteInfoAt(u, id)]);
  }

  lemma WriteGroup(t: Tables, u: Tables, id: int, r: GroupRow)
    requires UniqueGroups(t) && UniqueGroups(u)
    requires u.groups == t.groups[id := r]
    requires id in t.groups ==> t.groups[id].cid == r.cid
    ensures GroupsView(u) == GroupsView(t)[r.cid := GroupInfoAt(u, id)]
  {
    GroupsViewShows(t);
    assert u.groups[id].cid == r.cid;
    assert GroupCids(u) == GroupCids(t) + {r.cid} by {
      forall i | i in t.groups ensures t.groups[i].cid in GroupCids(u) {
        assert u.groups[i].cid == t.groups[i].cid;
      }
    }
    forall i | i in u.groups && i != id ensures GroupInfoAt(u, i) == GroupInfoAt(t, i) && u.groups[i].cid != r.cid {}
    GroupsViewIs(u, GroupsView(t)[r.cid := GroupInfoAt(u, id)]);
  }

  /** Tables with the same group rows show the same groups. */
  lemma SameGroups(t: Tables, u: Tables)
    requires UniqueGroups(t) && u.groups == t.groups
    ensures GroupsView(u) == GroupsView(t)
  {
    GroupsViewShows(t);
    assert GroupCids(u) == GroupCids(t);
    GroupsViewIs(u, GroupsView(t));
  }

  /** Writing a group row without changing its cluster id does not show in the sites. */
  lemma WriteGroupKeepsSites(t: Tables, u: Tables, id: int, r: GroupRow)
    requires SiteConstraints(t)
    requires u.groups == t.groups[id := r] && u.sites == t.sites && u.tags == t.tags
    requires id in t.groups ==> t.groups[id].cid == r.cid
    ensures SitesView(u) == SitesView(t)
  {
    SitesViewShows(t);
    assert SiteCids(u) == SiteCids(t);
    forall i | i in u.sites ensures SiteInfoAt(u, i) == SiteInfoAt(t, i) {}
    SitesViewIs(u, SitesView(t));
  }

  lemma InsertSiteView(t: Tables, p: SitePayload, gid: Option<int>)
    requires SiteConstraints(t) && UniqueSites(InsertSiteRow(t, p, gid))
    requires GroupRef(t, gid) == p.group
    ensures SitesView(InsertSiteRow(t, p, gid)) ==
            SitesView(t)[p.cid := SiteInfo(p.org, p.name, p.url, p.group, p.enabled,
                                           ArchiveStamp(p.archived, p.updated), p.created, p.updated, {})]
  {
    var u := InsertSiteRow(t, p, gid);
    var id := NextId(t.sites.Keys);
    WriteSite(t, u, id, u.sites[id]);
  }

  lemma UpdateSiteView(t: Tables, p: SitePayload, id: int, gid: Option<int>)
    requires id in t.sites && t.sites[id].cid == p.cid
    requires UniqueSites(t) && UniqueSites(UpdateSiteRow(t, id, p, gid))
    requires GroupRef(t, gid) == p.group
    requires p.cid in SitesView(t) && SitesView(t)[p.cid] == SiteInfoAt(t, id)
    ensures SitesView(UpdateSiteRow(t, id, p, gid)) ==
            SitesView(t)[p.cid := SitesView(t)[p.cid].(name := p.name, url := p.url, enabled := p.enabled, group := p.group,
                                                       archivedAt := ArchiveStamp(p.archived, p.updated), updated := p.updated)]
  {
    var u := UpdateSiteRow(t, id, p, gid);
    WriteSite(t, u, id, u.sites[id]);
  }

  lemma TagRowsView(t: Tables, cid: string, id: int, have: set<string>)
    requires UniqueSites(t) && id in t.sites && t.sites[id].cid == cid
    requires cid in SitesView(t) && SitesView(t)[cid] == SiteInfoAt(t, id)
    ensures SitesView(t.(tags := t.tags[id := have])) == SitesView(t)[cid := SitesView(t)[cid].(tags := have)]
  {
    var u := t.(tags := t.tags[id := have]);
    assert u.sites == t.sites[id := t.sites[id]];
    WriteSite(t, u, id, u.sites[id]);
  }

  lemma DeleteSiteView(t: Tables, cid: string)
    requires Constraints(t)
    ensures SitesView(DeleteSiteRow(t, cid)) == SitesView(t) - {cid}
  {
    SitesViewShows(t);
    var u := DeleteSiteRow(t, cid);
    assert SiteCids(u) == SiteCids(t) - {cid} by {
      forall c | c in SiteCids(t) && c != cid ensures c in SiteCids(u) {
        var i :| i in t.sites && t.sites[i].cid == c;
        assert u.sites[i].cid == c;
      }
    }
    forall i | i in u.sites ensures SiteInfoAt(u, i) == SiteInfoAt(t, i) {}
    SitesViewIs(u, SitesView(t) - {cid});
  }

  // ---------------------------------------------------------------------------
  // Simulation: the statements do to the view what the command does to the fleet

  /** The transaction and the command fail alike, or succeed with matching results. */
  ghost predicate Simulates(t: Tables, r: TxResult, o: Outcome) {
    match r
    case Done(u) => o == Ok(View(u)) && u.orgs == t.orgs
    case Failed(e) => o == Err(e)
  }

  lemma NameTakenAgrees(t: Tables, p: GroupPayload)
    requires UniqueGroups(t)
    ensures NameTaken(View(t), p) <==>
            exists i :: i in t.groups && t.groups[i].org == p.org && t.groups[i].name == p.name && t.groups[i].cid != p.cid
  {
    GroupsViewShows(t);
    var m := GroupsView(t);
    if c :| c in m && c != p.cid && m[c].org == p.org && m[c].name == p.name {
      var i :| i in t.groups && t.groups[i].cid == c;
    }
    if i :| i in t.groups && t.groups[i].org == p.org && t.groups[i].name == p.name && t.groups[i].cid != p.cid {
      assert t.groups[i].cid in m;
    }
  }

  lemma PutGroupSimulates(t: Tables, p: GroupPayload)
    requires Constraints(t)
    ensures Simulates(t, PutGroupRow(t, p), PutGroup(View(t), t.orgs, p)) == true
  {
    NameTakenAgrees(t, p);
    GroupIdShown(t, p.cid);
    if PutGroupRow(t, p).Done? {
      var u := PutGroupRow(t, p).tables;
      var id := if GroupId(t, p.cid).Some? then GroupId(t, p.cid).value else NextId(t.groups.Keys);
      WriteGroup(t, u, id, u.groups[id]);
      WriteGroupKeepsSites(t, u, id, u.groups[id]);
    }
  }

  lemma InsertSiteSimulates(t: Tables, p: SitePayload, gid: Option<int>)
    requires Constraints(t) && ResolveGroup(t, p.group) == Some(gid)
    requires SiteId(t, p.cid).None? && p.org in t.orgs
    ensures Simulates(t, PutSiteRow(t, p), PutSite(View(t), t.orgs, p)) == true
  {
    GroupIdShown(t, p.group);
    SiteIdShown(t, p.cid);
    InsertSiteView(t, p, gid);
    SameGroups(t, InsertSiteRow(t, p, gid));
  }

  lemma UpdateSiteSimulates(t: Tables, p: SitePayload, id: int, gid: Option<int>)
    requires Constraints(t) && ResolveGroup(t, p.group) == Some(gid)
    requires SiteId(t, p.cid) == Some(id)
    ensures Simulates(t, PutSiteRow(t, p), PutSite(View(t), t.orgs, p)) == true
  {
    GroupIdShown(t, p.group);
    SiteIdShown(t, p.cid);
    UpdateSiteView(t, p, id, gid);
    SameGroups(t, UpdateSiteRow(t, id, p, gid));
  }

  lemma PutSiteSimulates(t: Tables, p: SitePayload)
    requires Constraints(t)
    ensures Simulates(t, PutSiteRow(t, p), PutSite(View(t), t.orgs, p)) == true
  {
    match (ResolveGroup(t, p.group), SiteId(t, p.cid))
    case (None, _) => GroupIdShown(t, p.group);
    case (Some(gid), None) =>
      if p.org in t.orgs {
        InsertSiteSimulates(t, p, gid);
      } else {
        GroupIdShown(t, p.group);
        SiteIdShown(t, p.cid);
      }
    case (Some(gid), Some(id)) => UpdateSiteSimulates(t, p, id, gid);
  }

  lemma {:induction false} InsertTagsExact(have: set<string>, tags: seq<string>)
    ensures InsertTags(have, tags).Some? <==> NoDup(tags) && Elements(tags) !! have
    ensures InsertTags(have, tags).Some? ==> InsertTags(have, tags).value == have + Elements(tags)
    decreases |tags|
  {
    if tags != [] {
      InsertTagsExact(have + {tags[0]}, tags[1..]);
      assert tags == [tags[0]] + tags[1..];
      assert Elements(tags) == {tags[0]} + Elements(tags[1..]);
      if NoDup(tags) {
        assert NoDup(tags[1..]);
        assert tags[0] !in Elements(tags[1..]);
      }
      if NoDup(tags[1..]) && tags[0] !in Elements(tags[1..]) {
        assert NoDup(tags);
      }
    }
  }

  /** The insertions succeed exactly when no tag repeats, and then leave the set of tags. */
  lemma InsertTagsFromEmpty(tags: seq<string>)
    ensures InsertTags({}, tags) == if NoDup(tags) then Some(Elements(tags)) else None
  {
    InsertTagsExact({}, tags);
    assert {} + Elements(tags) == Elements(tags);
  }

  lemma SetTagsSimulates(t: Tables, cid: string, tags: seq<string>)
    requires Constraints(t)
    ensures Simulates(t, SetTagRows(t, cid, tags), Run(View(t), t.orgs, TagsSet(cid, tags))) == true
  {
    SiteIdShown(t, cid);
    InsertTagsFromEmpty(tags);
    if SetTagRows(t, cid, tags).Done? {
      TagRowsView(t, cid, SiteId(t, cid).value, Elements(tags));
      SameGroups(t, SetTagRows(t, cid, tags).tables);
    }
  }

  lemma ArchiveSimulates(t: Tables, cid: string, archived: bool, updated: string)
    requires Constraints(t)
    ensures Simulates(t, Materialize(t, SiteArchive(cid, archived, updated)),
                      Run(View(t), t.orgs, SiteArchive(cid, archived, updated))) == true
  {
    SiteIdShown(t, cid);
    if SiteId(t, cid).Some? {
      var u := Materialize(t, SiteArchive(cid, archived, updated)).tables;
      var id := SiteId(t, cid).value;
      WriteSite(t, u, id, u.sites[id]);
      SameGroups(t, u);
    }
  }

  /**
   Every operation commutes with forgetting the row ids: it fails on the tables exactly
   when, and as, it fails on the view, and otherwise the new view is the command applied
   to the old one.
   */
  lemma MaterializeSimulates(t: Tables, cmd: Command)
    requires Constraints(t)
    ensures Simulates(t, Materialize(t, cmd), Run(View(t), t.orgs, cmd)) == true
  {
    match cmd
    case GroupPut(p) => PutGroupSimulates(t, p);
    case SitePut(p) => PutSiteSimulates(t, p);
    case SiteArchive(cid, archived, updated) => ArchiveSimulates(t, cid, archived, updated);
    case SiteDelete(cid) =>
      DeleteSiteView(t, cid);
      SameGroups(t, DeleteSiteRow(t, cid));
    case TagsSet(cid, tags) => SetTagsSimulates(t, cid, tags);
    case _ =>
  }
}
