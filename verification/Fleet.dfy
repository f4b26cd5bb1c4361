/**
 The replicated fleet configuration as the cluster sees it: groups and sites keyed
 by their stable cluster identity, with no node-local numeric row ids. The commands
 below are what a committed operation does to that configuration.
 */
module Fleet {
  import opened Basics

  datatype GroupPayload = GroupPayload(cid: string, org: int, name: string, created: string)

  datatype SitePayload = SitePayload(
    cid: string, org: int, name: string, url: string, group: string,
    enabled: bool, archived: bool, created: string, updated: string)

  /** A decoded operation. `BadPayload` is a known kind whose payload does not decode. */
  datatype Command =
    | GroupPut(group: GroupPayload)
    | SitePut(site: SitePayload)
    | SiteArchive(cid: string, archived: bool, updated: string)
    | SiteDelete(cid: string)
    | TagsSet(cid: string, tags: seq<string>)
    | BadPayload(kind: string, bytes: string)
    | UnknownKind(kind: string)

  datatype Error =
    | GroupConflict
    | IdReused
    | NoDigest
    | NoRow
    | Constraint
    | Malformed
    | Unsupported
    | Undecoded

  datatype GroupInfo = GroupInfo(org: int, name: string, created: string)

  /** `group` is the cluster id of the site's group, "" for a site without one. */
  datatype SiteInfo = SiteInfo(
    org: int, name: string, url: string, group: string, enabled: bool,
    archivedAt: Option<string>, created: string, updated: string, tags: set<string>)

  datatype Fleet = Fleet(groups: map<string, GroupInfo>, sites: map<string, SiteInfo>)

  datatype Outcome = Ok(fleet: Fleet) | Err(error: Error)

  function ArchiveStamp(archived: bool, updated: string): Option<string> {
    if archived then Some(updated) else None
  }

  function Elements(tags: seq<string>): set<string> {
    set t | t in tags
  }

  predicate SameName(a: GroupInfo, b: GroupInfo) {
    a.org == b.org && a.name == b.name
  }

  /** Another group of the same organization already carries the requested name. */
  predicate NameTaken(f: Fleet, p: GroupPayload) {
    exists c :: c in f.groups && c != p.cid && f.groups[c].org == p.org && f.groups[c].name == p.name
  }

  function PutGroup(f: Fleet, orgs: set<int>, p: GroupPayload): Outcome {
    if NameTaken(f, p) then Err(GroupConflict)
    else if p.org !in orgs then Err(Constraint)
    else
      var created := if p.cid in f.groups then f.groups[p.cid].created else p.created;
      Ok(f.(groups := f.groups[p.cid := GroupInfo(p.org, p.name, created)]))
  }

  function PutSite(f: Fleet, orgs: set<int>, p: SitePayload): Outcome {
    if p.group != "" && p.group !in f.groups then Err(NoRow)
    else if p.cid !in f.sites then
      if p.org !in orgs then Err(Constraint)
      else Ok(f.(sites := f.sites[p.cid := SiteInfo(p.org, p.name, p.url, p.group, p.enabled,
                                                    ArchiveStamp(p.archived, p.updated), p.created, p.updated, {})]))
    else
      Ok(f.(sites := f.sites[p.cid := f.sites[p.cid].(name := p.name, url := p.url, enabled := p.enabled,
                                                      group := p.group, archivedAt := ArchiveStamp(p.archived, p.updated),
                                                      updated := p.updated)]))
  }

  function Run(f: Fleet, orgs: set<int>, cmd: Command): Outcome {
    match cmd
    case GroupPut(p) => PutGroup(f, orgs, p)
    case SitePut(p) => PutSite(f, orgs, p)
    case SiteArchive(cid, archived, updated) =>
      if cid !in f.sites then Ok(f)
      else Ok(f.(sites := f.sites[cid := f.sites[cid].(archivedAt := ArchiveStamp(archived, updated), updated := updated)]))
    case SiteDelete(cid) => Ok(f.(sites := f.sites - {cid}))
    case TagsSet(cid, tags) =>
      if cid !in f.sites then Err(NoRow)
      else if !NoDup(tags) then Err(Constraint)
      else Ok(f.(sites := f.sites[cid := f.sites[cid].(tags := Elements(tags))]))
    case BadPayload(_, _) => Err(Malformed)
    case UnknownKind(_) => Err(Unsupported)
  }

  /**
   What every reachable configuration satisfies: names unique per organization, group
   references resolve, and the archive stamp carries nothing beyond the archived flag.
   */
  ghost predicate Coherent(f: Fleet, orgs: set<int>) {
    && (forall c, d :: c in f.groups && d in f.groups && SameName(f.groups[c], f.groups[d]) ==> c == d)
    && (forall c :: c in f.groups ==> f.groups[c].org in orgs)
    && (forall c :: c in f.sites ==>
          && f.sites[c].org in orgs
          && (f.sites[c].group != "" ==> f.sites[c].group in f.groups)
          && (f.sites[c].archivedAt.Some? ==> f.sites[c].archivedAt.value == f.sites[c].updated))
  }

  lemma RunKeepsCoherent(f: Fleet, orgs: set<int>, cmd: Command)
    requires Coherent(f, orgs)
    ensures Run(f, orgs, cmd).Ok? ==> Coherent(Run(f, orgs, cmd).fleet, orgs)
  {
  }

  // ---------------------------------------------------------------------------
  // Immutable identities

  /**
   The identity the handlers mint with a cluster id: a group keeps its organization
   and name, a site keeps its organization and creation time.
   */
  datatype Registry = Registry(group: string -> (int, string), site: string -> (int, string))

  ghost predicate Conforms(cmd: Command, reg: Registry) {
    match cmd
    case GroupPut(p) => reg.group(p.cid) == (p.org, p.name)
    case SitePut(p) => reg.site(p.cid) == (p.org, p.created)
    case _ => true
  }

  ghost predicate FleetConforms(f: Fleet, reg: Registry) {
    && (forall c :: c in f.groups ==> reg.group(c) == (f.groups[c].org, f.groups[c].name))
    && (forall c :: c in f.sites ==> reg.site(c) == (f.sites[c].org, f.sites[c].created))
  }

  lemma RunKeepsConforming(f: Fleet, orgs: set<int>, cmd: Command, reg: Registry)
    requires FleetConforms(f, reg) && Conforms(cmd, reg)
    ensures Run(f, orgs, cmd).Ok? ==> FleetConforms(Run(f, orgs, cmd).fleet, reg)
  {
  }

  /** Committed commands never remove a group and never change its creation time. */
  ghost predicate GroupsGrow(f: Fleet, g: Fleet) {
    forall c :: c in f.groups ==> c in g.groups && g.groups[c].created == f.groups[c].created
  }

  lemma RunGrowsGroups(f: Fleet, orgs: set<int>, cmd: Command)
    ensures Run(f, orgs, cmd).Ok? ==> GroupsGrow(f, Run(f, orgs, cmd).fleet)
  {
  }

  /** A name conflict is never resolved by later commands that respect the identities. */
  lemma ConflictPersists(f: Fleet, g: Fleet, p: GroupPayload, reg: Registry)
    requires FleetConforms(f, reg) && FleetConforms(g, reg) && GroupsGrow(f, g)
    requires NameTaken(f, p)
    ensures NameTaken(g, p)
  {
    var c :| c in f.groups && c != p.cid && f.groups[c].org == p.org && f.groups[c].name == p.name;
    assert c in g.groups;
  }
}
