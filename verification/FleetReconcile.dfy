/**
 What restoring a snapshot achieves, exactly: when it succeeds, and which configuration
 it leaves behind.
 */
module FleetReconcile {
  import opened Basics
  import opened Fleet
  import opened FleetTables
  import opened FleetRestore

  // ---------------------------------------------------------------------------
  // What a snapshot records

  function GroupRecord(cid: string, info: GroupInfo): GroupPayload {
    GroupPayload(cid, info.org, info.name, info.created)
  }

  /** The archive time is recorded as a flag only. */
  function SiteRecord(cid: string, info: SiteInfo): SitePayload {
    SitePayload(cid, info.org, info.name, info.url, info.group, info.enabled, info.archivedAt.Some?, info.created, info.updated)
  }

  ghost predicate ListsGroups(gs: seq<GroupPayload>, m: map<string, GroupInfo>) {
    && (forall i, j :: 0 <= i < j < |gs| ==> gs[i].cid != gs[j].cid)
    && (forall i :: 0 <= i < |gs| ==> gs[i].cid in m && gs[i] == GroupRecord(gs[i].cid, m[gs[i].cid]))
    && m.Keys == GroupKeys(gs)
  }

  ghost predicate ListsSites(s: Snapshot, m: map<string, SiteInfo>) {
    && (forall i, j :: 0 <= i < j < |s.sites| ==> s.sites[i].cid != s.sites[j].cid)
    && (forall i :: 0 <= i < |s.sites| ==> s.sites[i].cid in m && s.sites[i] == SiteRecord(s.sites[i].cid, m[s.sites[i].cid]))
    && m.Keys == SiteKeys(s.sites)
    && (forall c :: c in m ==> NoDup(TagsOf(s, c)) && Elements(TagsOf(s, c)) == m[c].tags)
  }

  /** The snapshot lists every group and site of the fleet once, in some order. */
  ghost predicate Lists(s: Snapshot, f: Fleet) {
    ListsGroups(s.groups, f.groups) && ListsSites(s, f.sites)
  }

  lemma ListedGroup(gs: seq<GroupPayload>, m: map<string, GroupInfo>, c: string) returns (i: nat)
    requires ListsGroups(gs, m) && c in m
    ensures i < |gs| && gs[i] == GroupRecord(c, m[c])
  {
    assert c in GroupKeys(gs);
    var p :| p in gs && p.cid == c;
    i :| 0 <= i < |gs| && gs[i] == p;
  }

  lemma ListedSite(s: Snapshot, m: map<string, SiteInfo>, c: string) returns (i: nat)
    requires ListsSites(s, m) && c in m
    ensures i < |s.sites| && s.sites[i] == SiteRecord(c, m[c])
  {
    assert c in SiteKeys(s.sites);
    var p :| p in s.sites && p.cid == c;
    i :| 0 <= i < |s.sites| && s.sites[i] == p;
  }

  /** A snapshot loses nothing of a reachable configuration. */
  lemma SnapshotLossless(s: Snapshot, f: Fleet, g: Fleet, orgs: set<int>)
    requires Lists(s, f) && Lists(s, g)
    requires Coherent(f, orgs) && Coherent(g, orgs)
    ensures f == g
  {
    forall c | c in f.groups ensures f.groups[c] == g.groups[c] {
      var i := ListedGroup(s.groups, f.groups, c);
    }
    forall c | c in f.sites ensures f.sites[c] == g.sites[c] {
      var i := ListedSite(s, f.sites, c);
    }
    assert f.groups == g.groups;
    assert f.sites == g.sites;
  }

  // ---------------------------------------------------------------------------
  // Upserting the groups

  predicate SameNamed(a: GroupPayload, b: GroupPayload) {
    a.org == b.org && a.name == b.name
  }

  ghost predicate GoodGroups(gs: seq<GroupPayload>, orgs: set<int>) {
    && (forall i, j :: 0 <= i < j < |gs| ==> gs[i].cid != gs[j].cid && !SameNamed(gs[i], gs[j]))
    && (forall i :: 0 <= i < |gs| ==> gs[i].org in orgs)
  }

  /**
   No group of the target holds the name of a listed group, unless it is that group
   itself or was listed before it.
   */
  ghost predicate NoClash(m: map<string, GroupInfo>, gs: seq<GroupPayload>) {
    forall i :: 0 <= i < |gs| ==> NoClashAt(m, gs, i)
  }

  ghost predicate NoClashAt(m: map<string, GroupInfo>, gs: seq<GroupPayload>, i: nat)
    requires i < |gs|
  {
    forall c :: c in m && m[c].org == gs[i].org && m[c].name == gs[i].name ==> c in GroupKeys(gs[..i + 1])
  }

  function InheritedCreated(m: map<string, GroupInfo>, p: GroupPayload): string {
    if p.cid in m then m[p.cid].created else p.created
  }

  /** `n` is `m` with the listed groups written over it; creation times of known groups stay. */
  ghost predicate GroupsWritten(m: map<string, GroupInfo>, gs: seq<GroupPayload>, n: map<string, GroupInfo>) {
    && n.Keys == m.Keys + GroupKeys(gs)
    && (forall i :: 0 <= i < |gs| ==>
          gs[i].cid in n && n[gs[i].cid] == GroupInfo(gs[i].org, gs[i].name, InheritedCreated(m, gs[i])))
    && (forall c :: c in m && c !in GroupKeys(gs) ==> c in n && n[c] == m[c])
  }

  lemma GroupKeysCons(gs: seq<GroupPayload>)
    requires gs != []
    ensures GroupKeys(gs) == {gs[0].cid} + GroupKeys(gs[1..])
  {
    assert gs == [gs[0]] + gs[1..];
  }

  lemma ClashAtHead(f: Fleet, gs: seq<GroupPayload>)
    requires gs != []
    ensures NoClashAt(f.groups, gs, 0) <==> !NameTaken(f, gs[0])
  {
    assert gs[..1] == [gs[0]];
    assert GroupKeys(gs[..1]) == {gs[0].cid};
  }

  /** Once the head is written, the rest clashes with the new configuration iff it did with the old. */
  lemma ClashAfterHead(m: map<string, GroupInfo>, gs: seq<GroupPayload>, created: string, i: nat)
    requires 0 < i < |gs| && !SameNamed(gs[0], gs[i])
    ensures NoClashAt(m[gs[0].cid := GroupInfo(gs[0].org, gs[0].name, created)], gs[1..], i - 1) <==> NoClashAt(m, gs, i)
  {
    var n := m[gs[0].cid := GroupInfo(gs[0].org, gs[0].name, created)];
    GroupKeysCons(gs[..i + 1]);
    assert gs[..i + 1][1..] == gs[1..][..i];
    assert gs[1..][i - 1] == gs[i];
    assert forall c :: c in m && c != gs[0].cid ==> c in n && n[c] == m[c];
  }

  lemma ClashHeadTail(f: Fleet, gs: seq<GroupPayload>, orgs: set<int>, created: string)
    requires gs != [] && GoodGroups(gs, orgs)
    ensures NoClash(f.groups, gs) <==>
            !NameTaken(f, gs[0]) && NoClash(f.groups[gs[0].cid := GroupInfo(gs[0].org, gs[0].name, created)], gs[1..])
  {
    var n := f.groups[gs[0].cid := GroupInfo(gs[0].org, gs[0].name, created)];
    ClashAtHead(f, gs);
    forall i | 0 < i < |gs| ensures NoClashAt(n, gs[1..], i - 1) <==> NoClashAt(f.groups, gs, i) {
      ClashAfterHead(f.groups, gs, created, i);
    }
    if NoClash(n, gs[1..]) && !NameTaken(f, gs[0]) {
      forall i | 0 <= i < |gs| ensures NoClashAt(f.groups, gs, i) {
        assert i > 0 ==> NoClashAt(n, gs[1..], i - 1);
      }
    }
    if NoClash(f.groups, gs) {
      forall i | 0 <= i < |gs| - 1 ensures NoClashAt(n, gs[1..], i) {
        assert NoClashAt(f.groups, gs, i + 1);
        assert NoClashAt(n, gs[1..], (i + 1) - 1);
      }
    }
  }

  lemma {:induction false} PutGroupsExact(f: Fleet, orgs: set<int>, gs: seq<GroupPayload>)
    requires GoodGroups(gs, orgs)
    ensures PutGroups(f, orgs, gs).Ok? <==> NoClash(f.groups, gs)
    ensures PutGroups(f, orgs, gs).Ok? ==>
              var g := PutGroups(f, orgs, gs).fleet;
              g.sites == f.sites && GroupsWritten(f.groups, gs, g.groups)
    decreases |gs|
  {
    if gs != [] {
      var p := gs[0];
      ClashHeadTail(f, gs, orgs, InheritedCreated(f.groups, p));
      if !NameTaken(f, p) {
        var g := PutGroup(f, orgs, p).fleet;
        PutGroupsExact(g, orgs, gs[1..]);
        if NoClash(f.groups, gs) {
          GroupsWrittenCons(f.groups, gs, g.groups, PutGroups(f, orgs, gs).fleet.groups);
        }
      }
    }
  }

  lemma GroupsWrittenCons(m: map<string, GroupInfo>, gs: seq<GroupPayload>, m1: map<string, GroupInfo>, n: map<string, GroupInfo>)
    requires gs != [] && (forall i, j :: 0 <= i < j < |gs| ==> gs[i].cid != gs[j].cid)
    requires m1 == m[gs[0].cid := GroupInfo(gs[0].org, gs[0].name, InheritedCreated(m, gs[0]))]
    requires GroupsWritten(m1, gs[1..], n)
    ensures GroupsWritten(m, gs, n)
  {
    GroupKeysCons(gs);
    var rest := gs[1..];
    forall i | 0 <= i < |rest| ensures rest[i].cid != gs[0].cid {
      assert rest[i] == gs[i + 1];
    }
    forall i | 0 <= i < |gs|
      ensures gs[i].cid in n && n[gs[i].cid] == GroupInfo(gs[i].org, gs[i].name, InheritedCreated(m, gs[i]))
    {
      if i > 0 {
        assert gs[i] == rest[i - 1];
        assert gs[0].cid != gs[i].cid;
      }
    }
  }

  // ---------------------------------------------------------------------------
  // Upserting the sites, then their tags

  function WrittenSite(m: map<string, SiteInfo>, p: SitePayload): SiteInfo {
    if p.cid in m then
      m[p.cid].(name := p.name, url := p.url, enabled := p.enabled, group := p.group,
                archivedAt := ArchiveStamp(p.archived, p.updated), updated := p.updated)
    else
      SiteInfo(p.org, p.name, p.url, p.group, p.enabled, ArchiveStamp(p.archived, p.updated), p.created, p.updated, {})
  }

  ghost predicate SitesWritten(m: map<string, SiteInfo>, ss: seq<SitePayload>, n: map<string, SiteInfo>) {
    && n.Keys == m.Keys + SiteKeys(ss)
    && (forall i :: 0 <= i < |ss| ==> ss[i].cid in n && n[ss[i].cid] == WrittenSite(m, ss[i]))
    && (forall c :: c in m && c !in SiteKeys(ss) ==> c in n && n[c] == m[c])
  }

  ghost predicate Distinct(ss: seq<SitePayload>) {
    forall i, j :: 0 <= i < j < |ss| ==> ss[i].cid != ss[j].cid
  }

  lemma SiteKeysCons(ss: seq<SitePayload>)
    requires ss != [] && Distinct(ss)
    ensures SiteKeys(ss) == {ss[0].cid} + SiteKeys(ss[1..])
    ensures ss[0].cid !in SiteKeys(ss[1..])
  {
    assert ss == [ss[0]] + ss[1..];
    forall i | 0 <= i < |ss[1..]| ensures ss[1..][i].cid != ss[0].cid {
      assert ss[1..][i] == ss[i + 1];
    }
  }

  lemma SitesWrittenCons(m: map<string, SiteInfo>, ss: seq<SitePayload>, n: map<string, SiteInfo>)
    requires ss != [] && Distinct(ss)
    requires SitesWritten(m[ss[0].cid := WrittenSite(m, ss[0])], ss[1..], n)
    ensures SitesWritten(m, ss, n)
  {
    SiteKeysCons(ss);
    forall i | 0 <= i < |ss| ensures ss[i].cid in n && n[ss[i].cid] == WrittenSite(m, ss[i]) {
      if i > 0 {
        assert ss[i] == ss[1..][i - 1];
        assert ss[0].cid != ss[i].cid;
      }
    }
  }

  lemma {:induction false} PutSitesExact(f: Fleet, orgs: set<int>, ss: seq<SitePayload>)
    requires Distinct(ss)
    requires forall i :: 0 <= i < |ss| ==> ss[i].org in orgs && (ss[i].group != "" ==> ss[i].group in f.groups)
    ensures PutSites(f, orgs, ss).Ok?
    ensures PutSites(f, orgs, ss).fleet.groups == f.groups
    ensures SitesWritten(f.sites, ss, PutSites(f, orgs, ss).fleet.sites)
    decreases |ss|
  {
    if ss != [] {
      var g := PutSite(f, orgs, ss[0]).fleet;
      PutSitesExact(g, orgs, ss[1..]);
      SitesWrittenCons(f.sites, ss, PutSites(f, orgs, ss).fleet.sites);
    }
  }

  ghost predicate TagsWritten(m: map<string, SiteInfo>, s: Snapshot, ss: seq<SitePayload>, n: map<string, SiteInfo>)
    requires forall i :: 0 <= i < |ss| ==> ss[i].cid in m
  {
    && n.Keys == m.Keys
    && (forall i :: 0 <= i < |ss| ==> ss[i].cid in n && n[ss[i].cid] == m[ss[i].cid].(tags := Elements(TagsOf(s, ss[i].cid))))
    && (forall c :: c in m && c !in SiteKeys(ss) ==> c in n && n[c] == m[c])
  }

  lemma {:induction false} PutTagsExact(f: Fleet, orgs: set<int>, s: Snapshot, ss: seq<SitePayload>)
    requires Distinct(ss)
    requires forall i :: 0 <= i < |ss| ==> ss[i].cid in f.sites && NoDup(TagsOf(s, ss[i].cid))
    ensures PutTags(f, orgs, s, ss).Ok?
    ensures PutTags(f, orgs, s, ss).fleet.groups == f.groups
    ensures TagsWritten(f.sites, s, ss, PutTags(f, orgs, s, ss).fleet.sites)
    decreases |ss|
  {
    if ss != [] {
      var g := Run(f, orgs, TagsSet(ss[0].cid, TagsOf(s, ss[0].cid))).fleet;
      PutTagsExact(g, orgs, s, ss[1..]);
      TagsWrittenCons(f.sites, s, ss, PutTags(f, orgs, s, ss).fleet.sites);
    }
  }

  lemma TagsWrittenCons(m: map<string, SiteInfo>, s: Snapshot, ss: seq<SitePayload>, n: map<string, SiteInfo>)
    requires ss != [] && Distinct(ss) && forall i :: 0 <= i < |ss| ==> ss[i].cid in m
    requires TagsWritten(m[ss[0].cid := m[ss[0].cid].(tags := Elements(TagsOf(s, ss[0].cid)))], s, ss[1..], n)
    ensures TagsWritten(m, s, ss, n)
  {
    SiteKeysCons(ss);
    forall i | 0 <= i < |ss|
      ensures ss[i].cid in n && n[ss[i].cid] == m[ss[i].cid].(tags := Elements(TagsOf(s, ss[i].cid)))
    {
      if i > 0 {
        assert ss[i] == ss[1..][i - 1];
        assert ss[0].cid != ss[i].cid;
      }
    }
  }

  // ---------------------------------------------------------------------------
  // The whole restore

  /** `g`, except that columns an upsert does not write keep the values they have in `f`. */
  ghost function Reconciled(f: Fleet, g: Fleet): Fleet {
    Fleet(map c | c in g.groups :: ReconciledGroup(f, c, g.groups[c]),
          map c | c in g.sites :: ReconciledSite(f, c, g.sites[c]))
  }

  ghost function ReconciledGroup(f: Fleet, c: string, info: GroupInfo): GroupInfo {
    if c in f.groups then info.(created := f.groups[c].created) else info
  }

  ghost function ReconciledSite(f: Fleet, c: string, info: SiteInfo): SiteInfo {
    if c in f.sites then info.(org := f.sites[c].org, created := f.sites[c].created) else info
  }

  lemma ListedGroupsGood(gs: seq<GroupPayload>, g: Fleet, orgs: set<int>)
    requires ListsGroups(gs, g.groups) && Coherent(g, orgs)
    ensures GoodGroups(gs, orgs)
  {
    forall i, j | 0 <= i < j < |gs| ensures !SameNamed(gs[i], gs[j]) {
      assert gs[i].cid != gs[j].cid;
      assert !SameName(g.groups[gs[i].cid], g.groups[gs[j].cid]);
    }
  }

  lemma ReconciledGroups(f: Fleet, g: Fleet, gs: seq<GroupPayload>, n: map<string, GroupInfo>)
    requires ListsGroups(gs, g.groups) && GroupsWritten(f.groups, gs, n)
    ensures Only(n, GroupKeys(gs)) == Reconciled(f, g).groups
  {
    forall c | c in g.groups ensures c in n && n[c] == ReconciledGroup(f, c, g.groups[c]) {
      var i := ListedGroup(gs, g.groups, c);
    }
  }

  lemma WrittenListedSite(f: Fleet, g: Fleet, orgs: set<int>, s: Snapshot, n: map<string, SiteInfo>, c: string)
    requires ListsSites(s, g.sites) && Coherent(g, orgs) && SitesWritten(f.sites, s.sites, n) && c in g.sites
    ensures c in n && n[c].(tags := g.sites[c].tags) == ReconciledSite(f, c, g.sites[c])
    ensures n[c].group == g.sites[c].group
  {
    var i := ListedSite(s, g.sites, c);
  }

  lemma DetachNothing(m: map<string, SiteInfo>, keep: set<string>)
    requires forall c :: c in m ==> m[c].group == "" || m[c].group in keep
    ensures Detach(m, keep) == m
  {
  }

  /** After the deletions the sites are the listed ones, and none lost its group. */
  lemma KeptSites(f: Fleet, g: Fleet, orgs: set<int>, s: Snapshot, n: map<string, SiteInfo>)
    requires Lists(s, g) && Coherent(g, orgs) && SitesWritten(f.sites, s.sites, n)
    ensures Detach(Only(n, SiteKeys(s.sites)), GroupKeys(s.groups)) == Only(n, SiteKeys(s.sites))
    ensures Only(n, SiteKeys(s.sites)).Keys == g.sites.Keys
  {
    var m := Only(n, SiteKeys(s.sites));
    assert m.Keys == g.sites.Keys;
    forall c | c in m ensures m[c].group == "" || m[c].group in GroupKeys(s.groups) {
      WrittenListedSite(f, g, orgs, s, n, c);
    }
    DetachNothing(m, GroupKeys(s.groups));
  }

  lemma ReconciledSiteAt(f: Fleet, g: Fleet, orgs: set<int>, s: Snapshot, n: map<string, SiteInfo>, r: map<string, SiteInfo>, c: string)
    requires ListsSites(s, g.sites) == true && Coherent(g, orgs) == true && SitesWritten(f.sites, s.sites, n) == true && c in g.sites
    requires forall i :: 0 <= i < |s.sites| ==> s.sites[i].cid in Only(n, SiteKeys(s.sites))
    requires TagsWritten(Only(n, SiteKeys(s.sites)), s, s.sites, r) == true
    ensures c in r && r[c] == ReconciledSite(f, c, g.sites[c])
  {
    var i := ListedSite(s, g.sites, c);
    WrittenListedSite(f, g, orgs, s, n, c);
  }

  lemma ReconciledSites(f: Fleet, g: Fleet, orgs: set<int>, s: Snapshot, n: map<string, SiteInfo>, r: map<string, SiteInfo>)
    requires ListsSites(s, g.sites) && Coherent(g, orgs) && SitesWritten(f.sites, s.sites, n)
    requires n.Keys >= g.sites.Keys
    requires forall i :: 0 <= i < |s.sites| ==> s.sites[i].cid in Only(n, SiteKeys(s.sites))
    requires TagsWritten(Only(n, SiteKeys(s.sites)), s, s.sites, r)
    ensures r == Reconciled(f, g).sites
  {
    assert r.Keys == g.sites.Keys;
    forall c | c in g.sites ensures r[c] == ReconciledSite(f, c, g.sites[c]) {
      ReconciledSiteAt(f, g, orgs, s, n, r, c);
    }
    AreReconciled(f, g, r);
  }

  lemma AreReconciled(f: Fleet, g: Fleet, r: map<string, SiteInfo>)
    requires r.Keys == g.sites.Keys && forall c :: c in g.sites ==> r[c] == ReconciledSite(f, c, g.sites[c])
    ensures r == Reconciled(f, g).sites
  {
  }

  /**
   Restoring a snapshot of `g` over `f` succeeds exactly when no target group clashes by
   name, and then leaves `g` with the immutable columns of surviving rows unchanged.
   */
  lemma RestoreFleetExact(f: Fleet, g: Fleet, orgs: set<int>, s: Snapshot)
    requires Lists(s, g) && Coherent(g, orgs)
    ensures RestoreFleet(f, orgs, s).Ok? <==> NoClash(f.groups, s.groups)
    ensures NoClash(f.groups, s.groups) ==> RestoreFleet(f, orgs, s) == Ok(Reconciled(f, g))
  {
    ListedGroupsGood(s.groups, g, orgs);
    PutGroupsExact(f, orgs, s.groups);
    if NoClash(f.groups, s.groups) {
      var f1 := PutGroups(f, orgs, s.groups).fleet;
      PutSitesExact(f1, orgs, s.sites);
      var f2 := PutSites(f1, orgs, s.sites).fleet;
      ReconciledGroups(f, g, s.groups, f2.groups);
      KeptSites(f, g, orgs, s, f2.sites);
      var k := Kept(f2, SiteKeys(s.sites), GroupKeys(s.groups));
      PutTagsExact(k, orgs, s, s.sites);
      ReconciledSites(f, g, orgs, s, f2.sites, PutTags(k, orgs, s, s.sites).fleet.sites);
    }
  }

  /** Rows the target and the snapshot share agree on the columns an upsert does not write. */
  ghost predicate SameImmutables(f: Fleet, g: Fleet) {
    && (forall c :: c in f.groups && c in g.groups ==> f.groups[c].created == g.groups[c].created)
    && (forall c :: c in f.sites && c in g.sites ==> f.sites[c].org == g.sites[c].org && f.sites[c].created == g.sites[c].created)
  }

  lemma ReconciledExact(f: Fleet, g: Fleet)
    ensures Reconciled(f, g) == g <==> SameImmutables(f, g)
  {
    var r := Reconciled(f, g);
    if r == g {
      assert forall c :: c in f.groups && c in g.groups ==> r.groups[c].created == g.groups[c].created;
      assert forall c :: c in f.sites && c in g.sites ==>
          r.sites[c].org == g.sites[c].org && r.sites[c].created == g.sites[c].created;
    }
    if SameImmutables(f, g) {
      assert r.groups == g.groups;
      assert r.sites == g.sites;
    }
  }
}
