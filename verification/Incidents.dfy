/**
 From check results to health, incidents and alerts: what the tables hold after any
 interleaved history of checks of many sites is a function of each site's own checks.
 */
module Incidents {
  import opened Basics

  type Site = string
  type Time = string

  datatype Check = Check(site: Site, ok: bool, errorClass: string, at: Time)

  datatype Health = Health(state: string, fails: nat, changedAt: Time, lastSuccess: Option<Time>, lastFailure: Option<Time>)

  datatype Incident = Incident(site: Site, state: string, summary: string, openedAt: Time, closedAt: Option<Time>)

  /** An in-app alert; incidents are numbered by their place in the table. */
  datatype Alert = Alert(incident: nat, site: Site, kind: string, at: Time)

  datatype Webhook = Webhook(id: nat, enabled: bool, org: string)

  /** The payload of a notification. */
  datatype Notice = Notice(kind: string, site: Site, incident: nat, state: string, summary: string, at: Time)

  datatype Delivery = Delivery(webhook: nat, notice: Notice)

  datatype Db = Db(health: map<Site, Health>, incidents: seq<Incident>, alerts: seq<Alert>, outbox: seq<Delivery>)

  /** What does not change during a run: the webhooks and each site's organization. */
  datatype Config = Config(hooks: seq<Webhook>, org: Site -> string)

  // ---------------------------------------------------------------------------
  // One check

  /** The latest open incident of a site. */
  function OpenIncident(rows: seq<Incident>, site: Site): (r: Option<nat>)
    ensures r.Some? ==> r.value < |rows| && rows[r.value].site == site && rows[r.value].closedAt == None
  {
    if rows == [] then None
    else if rows[|rows| - 1].site == site && rows[|rows| - 1].closedAt == None then Some(|rows| - 1)
    else OpenIncident(rows[..|rows| - 1], site)
  }

  /** One pending delivery for each enabled webhook of the organization. */
  function Deliveries(hooks: seq<Webhook>, org: string, n: Notice): seq<Delivery> {
    if hooks == [] then []
    else
      var w := hooks[|hooks| - 1];
      Deliveries(hooks[..|hooks| - 1], org, n) + if w.enabled && w.org == org then [Delivery(w.id, n)] else []
  }

  function Summary(state: string): string {
    "Website entered " + state + " state"
  }

  function OpenNotice(site: Site, i: nat, state: string, at: Time): Notice {
    Notice("incident.open", site, i, state, Summary(state), at)
  }

  function RecoveryNotice(site: Site, i: nat, at: Time): Notice {
    Notice("incident.recover", site, i, "resolved", "Website recovered", at)
  }

  function Transition(cfg: Config, db: Db, site: Site, next: string, at: Time): Db {
    var open := OpenIncident(db.incidents, site);
    if next == "healthy" then
      if open == None then db
      else
        var i := open.value;
        db.(incidents := db.incidents[i := db.incidents[i].(state := "resolved", closedAt := Some(at))],
            alerts := db.alerts + [Alert(i, site, "recovery", at)],
            outbox := db.outbox + Deliveries(cfg.hooks, cfg.org(site), RecoveryNotice(site, i, at)))
    else if open.Some? then
      db.(incidents := db.incidents[open.value := db.incidents[open.value].(state := next)])
    else
      var i := |db.incidents|;
      db.(incidents := db.incidents + [Incident(site, next, Summary(next), at, None)],
          alerts := db.alerts + [Alert(i, site, "open", at)],
          outbox := db.outbox + Deliveries(cfg.hooks, cfg.org(site), OpenNotice(site, i, next, at)))
  }

  function Row(h: map<Site, Health>, site: Site): Option<Health> {
    if site in h then Some(h[site]) else None
  }

  function NextState(fails: nat, c: Check): string {
    if c.ok then "healthy"
    else if fails == 0 then (if c.errorClass == "http_status" then "degraded" else "warning")
    else "down"
  }

  function NextHealth(row: Option<Health>, c: Check): Health {
    var fails := if row.Some? then row.value.fails else 0;
    var next := NextState(fails, c);
    var changed := row.None? || next != row.value.state;
    Health(next, if c.ok then 0 else fails + 1,
           if changed then c.at else row.value.changedAt,
           if c.ok then Some(c.at) else if row.Some? then row.value.lastSuccess else None,
           if !c.ok then Some(c.at) else if row.Some? then row.value.lastFailure else None)
  }

  function Checked(cfg: Config, db: Db, c: Check): Db {
    var row := Row(db.health, c.site);
    var next := NextHealth(row, c);
    var db1 := db.(health := db.health[c.site := next]);
    if row.Some? && row.value.state == next.state then db1 else Transition(cfg, db1, c.site, next.state, c.at)
  }

  /** The health row is written first; an interruption before the transition leaves it at that. */
  function CheckedUnless(cfg: Config, db: Db, c: Check, cut: bool): Db {
    if cut then db.(health := db.health[c.site := NextHealth(Row(db.health, c.site), c)]) else Checked(cfg, db, c)
  }

  class Monitor {
    const cfg: Config
    var health: map<Site, Health>
    var incidents: seq<Incident>
    var alerts: seq<Alert>
    var outbox: seq<Delivery>

    constructor (cfg: Config)
      ensures this.cfg == cfg && Tables() == Db(map[], [], [], [])
    {
      this.cfg := cfg;
      health, incidents, alerts, outbox := map[], [], [], [];
    }

    function Tables(): Db
      reads this
    {
      Db(health, incidents, alerts, outbox)
    }

    method Enqueue(site: Site, n: Notice)
      modifies this`outbox
      ensures outbox == old(outbox) + Deliveries(cfg.hooks, cfg.org(site), n)
    {
      var hooks := cfg.hooks;
      for i := 0 to |hooks|
        invariant outbox == old(outbox) + Deliveries(hooks[..i], cfg.org(site), n)
      {
        assert hooks[..i + 1][..i] == hooks[..i];
        if hooks[i].enabled && hooks[i].org == cfg.org(site) {
          outbox := outbox + [Delivery(hooks[i].id, n)];
        }
      }
      assert hooks[..|hooks|] == hooks;
    }

    method Change(site: Site, prev: string, next: string, at: Time)
      modifies this`incidents, this`alerts, this`outbox
      ensures Tables() == if prev == next || next == "unknown" then old(Tables()) else Transition(cfg, old(Tables()), site, next, at)
      // recovery closes the open incident, a further change updates it, and a first failure opens one
      ensures prev == next || next == "unknown" ==> incidents == old(incidents) && alerts == old(alerts) && outbox == old(outbox)
      ensures prev != next && next == "healthy" && OpenIncident(old(incidents), site).None? ==>
                incidents == old(incidents) && alerts == old(alerts) && outbox == old(outbox)
      ensures prev != next && next == "healthy" ==> forall i: nat :: OpenIncident(old(incidents), site) == Some(i) ==>
                incidents == old(incidents)[i := old(incidents)[i].(state := "resolved", closedAt := Some(at))]
                && alerts == old(alerts) + [Alert(i, site, "recovery", at)]
                && outbox == old(outbox) + Deliveries(cfg.hooks, cfg.org(site),
                                                      Notice("incident.recover", site, i, "resolved", "Website recovered", at))
      ensures prev != next && next != "healthy" && next != "unknown" ==> forall i: nat :: OpenIncident(old(incidents), site) == Some(i) ==>
                incidents == old(incidents)[i := old(incidents)[i].(state := next)] && alerts == old(alerts) && outbox == old(outbox)
      ensures prev != next && next != "healthy" && next != "unknown" && OpenIncident(old(incidents), site).None? ==>
                incidents == old(incidents) + [Incident(site, next, "Website entered " + next + " state", at, None)]
                && alerts == old(alerts) + [Alert(|old(incidents)|, site, "open", at)]
                && outbox == old(outbox) + Deliveries(cfg.hooks, cfg.org(site),
                       Notice("incident.open", site, |old(incidents)|, next, "Website entered " + next + " state", at))
    {
      if next == prev || next == "unknown" {
        return;
      }
      var open := OpenIncident(incidents, site);
      if next == "healthy" {
        if open.Some? {
          var i := open.value;
          incidents := incidents[i := incidents[i].(state := "resolved", closedAt := Some(at))];
          alerts := alerts + [Alert(i, site, "recovery", at)];
          Enqueue(site, Notice("incident.recover", site, i, "resolved", "Website recovered", at));
        }
      } else if open.Some? {
        incidents := incidents[open.value := incidents[open.value].(state := next)];
      } else {
        var i := |incidents|;
        var summary := "Website entered " + next + " state";
        incidents := incidents + [Incident(site, next, summary, at, None)];
        alerts := alerts + [Alert(i, site, "open", at)];
        Enqueue(site, Notice("incident.open", site, i, next, summary, at));
      }
    }

    /** `cut` says that the second transaction does not take place. */
    method UpdateHealth(c: Check, cut: bool)
      modifies this
      ensures Tables() == CheckedUnless(cfg, old(Tables()), c, cut)
      // the health row
      ensures c.site in health && health == old(health)[c.site := health[c.site]]
      ensures c.ok ==> health[c.site].state == "healthy" && health[c.site].fails == 0 && health[c.site].lastSuccess == Some(c.at)
      ensures !c.ok ==> health[c.site].lastFailure == Some(c.at)
      ensures !c.ok && (c.site in old(health) ==> old(health)[c.site].fails == 0) ==>
                health[c.site].fails == 1 && health[c.site].state == if c.errorClass == "http_status" then "degraded" else "warning"
      ensures !c.ok && c.site in old(health) && old(health)[c.site].fails > 0 ==>
                health[c.site].fails == old(health)[c.site].fails + 1 && health[c.site].state == "down"
      ensures c.site !in old(health) ==> health[c.site].changedAt == c.at
      ensures c.site in old(health) ==>
                health[c.site].changedAt == if health[c.site].state == old(health)[c.site].state then old(health)[c.site].changedAt else c.at
      ensures c.site in old(health) ==>
                if c.ok then health[c.site].lastFailure == old(health)[c.site].lastFailure
                else health[c.site].lastSuccess == old(health)[c.site].lastSuccess
      // nothing else happens while the state stays as it is, or when the second transaction does not take place
      ensures cut || (c.site in old(health) && old(health)[c.site].state == health[c.site].state) ==>
                incidents == old(incidents) && alerts == old(alerts) && outbox == old(outbox)
    {
      var state, fails := "unknown", 0;
      if c.site in health {
        state, fails := health[c.site].state, health[c.site].fails;
      }
      var next := state;
      var success, failure := None, None;
      if c.ok {
        fails, next, success := 0, "healthy", Some(c.at);
      } else {
        fails := fails + 1;
        failure := Some(c.at);
        next := if fails == 1 then "warning" else "down";
        if c.errorClass == "http_status" && fails == 1 {
          next := "degraded";
        }
      }
      if c.site !in health {
        health := health[c.site := Health(next, fails, c.at, success, failure)];
      } else {
        var h := health[c.site];
        var changedAt := if next != state then c.at else h.changedAt;
        health := health[c.site := Health(next, fails, changedAt,
                                          if success.Some? then success else h.lastSuccess,
                                          if failure.Some? then failure else h.lastFailure)];
      }
      assert health == old(health)[c.site := NextHealth(Row(old(health), c.site), c)];
      if !cut {
        Change(c.site, state, next, c.at);
      }
    }
  }

  /** The open incident is the latest row of the site that is not closed. */
  lemma {:induction false} OpenIncidentExactly(rows: seq<Incident>, site: Site)
    ensures OpenIncident(rows, site).None? <==> forall j :: 0 <= j < |rows| ==> rows[j].site != site || rows[j].closedAt != None
    ensures OpenIncident(rows, site).Some? ==>
              forall j :: OpenIncident(rows, site).value < j < |rows| ==> rows[j].site != site || rows[j].closedAt != None
  {
    if rows != [] {
      OpenIncidentExactly(rows[..|rows| - 1], site);
    }
  }

  // ---------------------------------------------------------------------------
  // One site's history

  function Trail(h: seq<Check>): nat {
    if h == [] || h[|h| - 1].ok then 0 else 1 + Trail(h[..|h| - 1])
  }

  function StateOf(h: seq<Check>): string
    requires h != []
  {
    NextState(Trail(h[..|h| - 1]), h[|h| - 1])
  }

  /** The places where a run of failures starts. */
  function Starts(h: seq<Check>): (r: seq<nat>)
    ensures forall k :: 0 <= k < |r| ==> r[k] < |h|
  {
    if h == [] then []
    else Starts(h[..|h| - 1]) + if Trail(h) == 1 then [|h| - 1] else []
  }

  /** The places of the first success after a run of failures. */
  function Stops(h: seq<Check>): (r: seq<nat>)
    ensures forall k :: 0 <= k < |r| ==> r[k] < |h|
  {
    if h == [] then []
    else
      var init := h[..|h| - 1];
      Stops(init) + if h[|h| - 1].ok && Trail(init) > 0 then [|h| - 1] else []
  }

  lemma {:induction false} StartsStops(h: seq<Check>)
    ensures |Starts(h)| == |Stops(h)| + if Trail(h) > 0 then 1 else 0
  {
    if h != [] {
      StartsStops(h[..|h| - 1]);
    }
  }

  lemma GrownTrail(h: seq<Check>, c: Check, g: seq<Check>)
    requires g == h + [c]
    ensures Trail(g) == (if c.ok then 0 else Trail(h) + 1) && StateOf(g) == NextState(Trail(h), c)
  {
    assert g[..|h|] == h;
  }

  lemma GrownStarts(h: seq<Check>, c: Check, g: seq<Check>)
    requires g == h + [c] && Trail(g) == if c.ok then 0 else Trail(h) + 1
    ensures Starts(g) == Starts(h) + if !c.ok && Trail(h) == 0 then [|h|] else []
  {
    assert g[..|h|] == h;
  }

  lemma GrownStops(h: seq<Check>, c: Check, g: seq<Check>)
    requires g == h + [c]
    ensures Stops(g) == Stops(h) + if c.ok && Trail(h) > 0 then [|h|] else []
  {
    assert g[..|h|] == h;
  }

  /** What one more check does to the trailing failures and the runs of failures. */
  lemma Grown(h: seq<Check>, c: Check)
    ensures Trail(h + [c]) == if c.ok then 0 else Trail(h) + 1
    ensures Starts(h + [c]) == Starts(h) + if !c.ok && Trail(h) == 0 then [|h|] else []
    ensures Stops(h + [c]) == Stops(h) + if c.ok && Trail(h) > 0 then [|h|] else []
    ensures StateOf(h + [c]) == NextState(Trail(h), c)
  {
    GrownTrail(h, c, h + [c]);
    GrownStarts(h, c, h + [c]);
    GrownStops(h, c, h + [c]);
  }

  /** The starts are the failures not preceded by a failure: the beginnings of the maximal runs of failures. */
  lemma {:induction false} StartsExact(h: seq<Check>, j: nat)
    requires j < |h|
    ensures j in Starts(h) <==> !h[j].ok && (j == 0 || h[j - 1].ok)
  {
    var init := h[..|h| - 1];
    Grown(init, h[|h| - 1]);
    assert h == init + [h[|h| - 1]];
    if j < |init| {
      StartsExact(init, j);
    } else {
      assert j !in Starts(init);
      assert Trail(init) == 0 <==> init == [] || init[|init| - 1].ok;
    }
  }

  /** The stops are the successes that follow a failure. */
  lemma {:induction false} StopsExact(h: seq<Check>, j: nat)
    requires j < |h|
    ensures j in Stops(h) <==> h[j].ok && j > 0 && !h[j - 1].ok
  {
    var init := h[..|h| - 1];
    if j < |init| {
      StopsExact(init, j);
    } else {
      assert j !in Stops(init);
      assert Trail(init) == 0 <==> init == [] || init[|init| - 1].ok;
    }
  }

  function LastAt(h: seq<Check>, ok: bool): Option<Time> {
    if h == [] then None
    else if h[|h| - 1].ok == ok then Some(h[|h| - 1].at)
    else LastAt(h[..|h| - 1], ok)
  }

  /** When the state last became what it is. */
  function ChangedAt(h: seq<Check>): Time
    requires h != []
  {
    var init := h[..|h| - 1];
    if init == [] || StateOf(init) != StateOf(h) then h[|h| - 1].at else ChangedAt(init)
  }

  /** The trailing failures are the last checks, as many as fail without a success after them. */
  lemma {:induction false} TrailExactly(h: seq<Check>)
    ensures Trail(h) <= |h| && forall j :: |h| - Trail(h) <= j < |h| ==> !h[j].ok
    ensures Trail(h) < |h| ==> h[|h| - Trail(h) - 1].ok
  {
    if h != [] && !h[|h| - 1].ok {
      TrailExactly(h[..|h| - 1]);
    }
  }

  /** Healthy after a success, down after two failures, and after one failure degraded or warning by its kind. */
  lemma StateExactly(h: seq<Check>)
    requires h != []
    ensures StateOf(h) == if h[|h| - 1].ok then "healthy"
                          else if |h| > 1 && !h[|h| - 2].ok then "down"
                          else if h[|h| - 1].errorClass == "http_status" then "degraded" else "warning"
  {
    TrailExactly(h[..|h| - 1]);
  }

  /** The time of the latest success, or failure. */
  lemma {:induction false} LastAtExactly(h: seq<Check>, ok: bool)
    ensures LastAt(h, ok).None? <==> forall j :: 0 <= j < |h| ==> h[j].ok != ok
    ensures LastAt(h, ok).Some? ==>
              exists i :: 0 <= i < |h| && h[i].ok == ok && h[i].at == LastAt(h, ok).value && forall j :: i < j < |h| ==> h[j].ok != ok
  {
    if h != [] && h[|h| - 1].ok != ok {
      LastAtExactly(h[..|h| - 1], ok);
    }
  }

  /** The time since which the state has been what it is. */
  lemma {:induction false} ChangedAtExactly(h: seq<Check>) returns (i: nat)
    requires h != []
    ensures i < |h| && ChangedAt(h) == h[i].at
    ensures forall j :: i < j <= |h| ==> StateOf(h[..j]) == StateOf(h)
    ensures i > 0 ==> StateOf(h[..i]) != StateOf(h)
  {
    var init := h[..|h| - 1];
    i := |h| - 1;
    assert h[..|h|] == h;
    if init != [] && StateOf(init) == StateOf(h) {
      i := ChangedAtExactly(init);
      forall j | i < j <= |h| ensures StateOf(h[..j]) == StateOf(h) {
        assert j < |h| ==> init[..j] == h[..j];
      }
      assert i > 0 ==> init[..i] == h[..i];
    }
  }

  /** The row a site has before its first check: none, or one that says nothing is known. */
  predicate Fresh(row: Option<Health>) {
    row.None? || (row.value.state == "unknown" && row.value.fails == 0 && row.value.lastSuccess == row.value.lastFailure == None)
  }

  function HealthOf(row: Option<Health>, h: seq<Check>): Option<Health> {
    if h == [] then row
    else Some(Health(StateOf(h), Trail(h), ChangedAt(h), LastAt(h, true), LastAt(h, false)))
  }

  lemma HealthStep(row: Option<Health>, h: seq<Check>, c: Check)
    requires Fresh(row)
    ensures HealthOf(row, h + [c]) == Some(NextHealth(HealthOf(row, h), c))
  {
    var g := h + [c];
    assert g[..|h|] == h;
    Grown(h, c);
    assert LastAt(g, true) == if c.ok then Some(c.at) else LastAt(h, true);
    assert LastAt(g, false) == if c.ok then LastAt(h, false) else Some(c.at);
    assert ChangedAt(g) == if h == [] || StateOf(h) != StateOf(g) then c.at else ChangedAt(h);
  }

  /** The incident of the k-th run of failures. */
  function IncidentOf(h: seq<Check>, site: Site, k: nat): Incident
    requires k < |Starts(h)|
  {
    IncidentFrom(site, OpenedState(h, k), h[Starts(h)[k]].at, ClosedTime(h, k), StateOf(h))
  }

  function IncidentsOf(h: seq<Check>, site: Site): seq<Incident> {
    seq(|Starts(h)|, k requires 0 <= k < |Starts(h)| => IncidentOf(h, site, k))
  }

  /** What one more check does to the incident of an earlier run. */
  function Aged(i: Incident, open: bool, c: Check): Incident {
    if !open then i
    else if c.ok then i.(state := "resolved", closedAt := Some(c.at))
    else i.(state := "down")
  }

  /** The incident of a run, from the parts of the history it depends on. */
  function IncidentFrom(site: Site, first: string, at: Time, closed: Option<Time>, state: string): Incident {
    if closed.Some? then Incident(site, "resolved", Summary(first), at, closed) else Incident(site, state, Summary(first), at, None)
  }

  function OpenedState(h: seq<Check>, k: nat): string
    requires k < |Starts(h)|
  {
    StateOf(h[..Starts(h)[k] + 1])
  }

  function ClosedTime(h: seq<Check>, k: nat): Option<Time> {
    if k < |Stops(h)| then Some(h[Stops(h)[k]].at) else None
  }

  lemma OpeningStays(h: seq<Check>, c: Check, k: nat)
    requires k < |Starts(h)|
    ensures k < |Starts(h + [c])| && OpenedState(h + [c], k) == OpenedState(h, k)
    ensures (h + [c])[Starts(h + [c])[k]].at == h[Starts(h)[k]].at
  {
    Grown(h, c);
    assert Starts(h + [c])[k] == Starts(h)[k] < |h|;
    assert (h + [c])[..Starts(h)[k] + 1] == h[..Starts(h)[k] + 1];
  }

  lemma ClosingStep(h: seq<Check>, c: Check, k: nat)
    requires k < |Starts(h)|
    ensures ClosedTime(h + [c], k) == if k >= |Stops(h)| && c.ok then Some(c.at) else ClosedTime(h, k)
    ensures k >= |Stops(h)| ==> Trail(h) > 0
  {
    StartsStops(h);
    Grown(h, c);
  }

  lemma IncidentAges(h: seq<Check>, c: Check, site: Site, k: nat)
    requires k < |Starts(h)|
    ensures k < |Starts(h + [c])|
    ensures IncidentOf(h + [c], site, k) == Aged(IncidentOf(h, site, k), k >= |Stops(h)|, c)
  {
    OpeningStays(h, c, k);
    ClosingStep(h, c, k);
    Grown(h, c);
    AgesFrom(site, OpenedState(h, k), h[Starts(h)[k]].at, ClosedTime(h, k), ClosedTime(h + [c], k),
             StateOf(h), StateOf(h + [c]), c);
  }

  lemma AgesFrom(site: Site, first: string, at: Time, closed: Option<Time>, closed': Option<Time>, state: string, state': string, c: Check)
    requires closed' == if closed.None? && c.ok then Some(c.at) else closed
    requires closed.None? && !c.ok ==> state' == "down"
    ensures IncidentFrom(site, first, at, closed', state') == Aged(IncidentFrom(site, first, at, closed, state), closed.None?, c)
  {
  }

  lemma IncidentOpens(h: seq<Check>, c: Check, site: Site)
    requires !c.ok && Trail(h) == 0
    ensures |Starts(h + [c])| == |Starts(h)| + 1
    ensures IncidentOf(h + [c], site, |Starts(h)|) ==
            Incident(site, NextState(0, c), Summary(NextState(0, c)), c.at, None)
  {
    StartsStops(h);
    Grown(h, c);
    assert (h + [c])[..|h| + 1] == h + [c];
  }

  /** What one more check does to a site's incidents. */
  function Advance(rows: seq<Incident>, trail: nat, c: Check): seq<Incident>
    requires trail > 0 ==> rows != []
  {
    if trail > 0 then rows[|rows| - 1 := Aged(rows[|rows| - 1], true, c)]
    else if c.ok then rows
    else rows + [Incident(c.site, NextState(0, c), Summary(NextState(0, c)), c.at, None)]
  }

  /** The last incident ages while it is open; the earlier ones stay. */
  lemma AdvanceAt(rows: seq<Incident>, trail: nat, c: Check, k: nat)
    requires k < |rows|
    ensures k < |Advance(rows, trail, c)|
    ensures Advance(rows, trail, c)[k] == Aged(rows[k], trail > 0 && k == |rows| - 1, c)
  {
  }

  lemma AdvancedOld(h: seq<Check>, c: Check, rows: seq<Incident>, k: nat, row: Incident)
    requires rows == IncidentsOf(h, c.site) && k < |Starts(h)| && row == rows[k]
    ensures k < |Starts(h + [c])|
    ensures IncidentOf(h + [c], c.site, k) == Aged(row, Trail(h) > 0 && k == |Starts(h)| - 1, c)
  {
    StartsStops(h);
    IncidentAges(h, c, c.site, k);
  }

  lemma AdvancedNew(h: seq<Check>, c: Check, rows: seq<Incident>)
    requires rows == IncidentsOf(h, c.site) && !c.ok && Trail(h) == 0
    ensures |Starts(h + [c])| == |rows| + 1 == |Advance(rows, Trail(h), c)|
    ensures IncidentOf(h + [c], c.site, |rows|) == Advance(rows, Trail(h), c)[|rows|]
  {
    IncidentOpens(h, c, c.site);
  }

  lemma IncidentsStep(h: seq<Check>, c: Check)
    ensures Trail(h) > 0 ==> IncidentsOf(h, c.site) != []
    ensures IncidentsOf(h + [c], c.site) == Advance(IncidentsOf(h, c.site), Trail(h), c)
  {
    StartsStops(h);
    Grown(h, c);
    var rows := IncidentsOf(h, c.site);
    var a, b := IncidentsOf(h + [c], c.site), Advance(rows, Trail(h), c);
    assert |a| == |Starts(h + [c])| == |b|;
    forall k: nat | k < |a| ensures a[k] == b[k] {
      if k < |rows| {
        AdvanceAt(rows, Trail(h), c, k);
        AdvancedOld(h, c, rows, k, rows[k]);
      } else {
        AdvancedNew(h, c, rows);
      }
    }
  }

  /** The alerts of a site whose incidents have the given numbers: open and recovery in turn. */
  function AlertAt(h: seq<Check>, ids: seq<nat>, site: Site, n: nat): Alert
    requires n < |Starts(h)| + |Stops(h)| && |ids| == |Starts(h)|
  {
    StartsStops(h);
    if n % 2 == 0 then Alert(ids[n / 2], site, "open", h[Starts(h)[n / 2]].at)
    else Alert(ids[n / 2], site, "recovery", h[Stops(h)[n / 2]].at)
  }

  function AlertsOf(h: seq<Check>, ids: seq<nat>, site: Site): seq<Alert>
    requires |ids| == |Starts(h)|
  {
    seq(|Starts(h)| + |Stops(h)|, n requires 0 <= n < |Starts(h)| + |Stops(h)| => AlertAt(h, ids, site, n))
  }

  lemma AlertStays(h: seq<Check>, c: Check, ids: seq<nat>, ids': seq<nat>, n: nat)
    requires n < |Starts(h)| + |Stops(h)| && |ids| == |Starts(h)| && |ids'| == |Starts(h + [c])| && ids <= ids'
    ensures n < |Starts(h + [c])| + |Stops(h + [c])|
    ensures AlertAt(h + [c], ids', c.site, n) == AlertAt(h, ids, c.site, n)
  {
    StartsStops(h);
    StartsStops(h + [c]);
    Grown(h, c);
  }

  lemma AlertsStay(h: seq<Check>, c: Check, ids: seq<nat>, ids': seq<nat>)
    requires |ids| == |Starts(h)| && |ids'| == |Starts(h + [c])| && ids <= ids'
    ensures |AlertsOf(h + [c], ids', c.site)| >= |AlertsOf(h, ids, c.site)|
    ensures AlertsOf(h + [c], ids', c.site)[..|AlertsOf(h, ids, c.site)|] == AlertsOf(h, ids, c.site)
  {
    var a, b := AlertsOf(h, ids, c.site), AlertsOf(h + [c], ids', c.site);
    Grown(h, c);
    forall n: nat | n < |a| ensures b[n] == a[n] {
      AlertStays(h, c, ids, ids', n);
    }
  }

  /** The alert a check causes: one when a run of failures starts or stops, and none otherwise. */
  function News(trail: nat, c: Check, id: nat): seq<Alert> {
    if !c.ok && trail == 0 then [Alert(id, c.site, "open", c.at)]
    else if c.ok && trail > 0 then [Alert(id, c.site, "recovery", c.at)]
    else []
  }

  lemma Halves(n: nat, m: nat, r: nat)
    requires r < 2 && n == 2 * m + r
    ensures n / 2 == m && n % 2 == r
  {
  }

  lemma NewAlert(h: seq<Check>, c: Check, ids: seq<nat>, id: nat, n: nat)
    requires n == |Starts(h)| + |Stops(h)| && |ids| == |Starts(h + [c])| > 0 && id == ids[|ids| - 1]
    requires c.ok <==> Trail(h) > 0
    ensures |Starts(h + [c])| + |Stops(h + [c])| == n + 1
    ensures [AlertAt(h + [c], ids, c.site, n)] == News(Trail(h), c, id)
  {
    StartsStops(h);
    Grown(h, c);
    Halves(n, |ids| - 1, if c.ok then 1 else 0);
  }

  lemma AlertsStep(h: seq<Check>, c: Check, ids: seq<nat>, ids': seq<nat>, id: nat)
    requires |ids| == |Starts(h)| && (Trail(h) > 0 ==> ids != [] && id == ids[|ids| - 1])
    requires ids' == ids + if !c.ok && Trail(h) == 0 then [id] else []
    ensures |ids'| == |Starts(h + [c])|
    ensures AlertsOf(h + [c], ids', c.site) == AlertsOf(h, ids, c.site) + News(Trail(h), c, id)
  {
    StartsStops(h);
    Grown(h, c);
    AlertsStay(h, c, ids, ids');
    var a, b := AlertsOf(h, ids, c.site), AlertsOf(h + [c], ids', c.site);
    if c.ok <==> Trail(h) > 0 {
      NewAlert(h, c, ids', id, |a|);
      Extended(a, b, AlertAt(h + [c], ids', c.site, |a|));
    } else {
      assert b == b[..|a|];
    }
  }

  lemma Extended(a: seq<Alert>, b: seq<Alert>, x: Alert)
    requires |b| == |a| + 1 && b[..|a|] == a && b[|a|] == x
    ensures b == a + [x]
  {
  }

  // ---------------------------------------------------------------------------
  // One site among the rows of all

  function Ids(rows: seq<Incident>, site: Site): (r: seq<nat>)
    ensures forall k :: 0 <= k < |r| ==> r[k] < |rows| && rows[r[k]].site == site
  {
    if rows == [] then []
    else
      var rest := Ids(rows[..|rows| - 1], site);
      if rows[|rows| - 1].site == site then rest + [|rows| - 1] else rest
  }

  function Select(rows: seq<Incident>, site: Site): seq<Incident> {
    if rows == [] then []
    else
      var rest := Select(rows[..|rows| - 1], site);
      if rows[|rows| - 1].site == site then rest + [rows[|rows| - 1]] else rest
  }

  function SelectAlerts(rows: seq<Alert>, site: Site): seq<Alert> {
    if rows == [] then []
    else
      var rest := SelectAlerts(rows[..|rows| - 1], site);
      if rows[|rows| - 1].site == site then rest + [rows[|rows| - 1]] else rest
  }

  lemma Appended(rows: seq<Incident>, x: Incident, site: Site)
    ensures Ids(rows + [x], site) == Ids(rows, site) + if x.site == site then [|rows|] else []
    ensures Select(rows + [x], site) == Select(rows, site) + if x.site == site then [x] else []
  {
    assert (rows + [x])[..|rows|] == rows;
  }

  lemma AppendedAlert(rows: seq<Alert>, x: Alert, site: Site)
    ensures SelectAlerts(rows + [x], site) == SelectAlerts(rows, site) + if x.site == site then [x] else []
  {
    assert (rows + [x])[..|rows|] == rows;
  }

  lemma {:induction false} SameLength(rows: seq<Incident>, site: Site)
    ensures |Ids(rows, site)| == |Select(rows, site)|
  {
    if rows != [] {
      SameLength(rows[..|rows| - 1], site);
    }
  }

  /** Replacing a row of the same site touches no other site. */
  lemma {:induction false} ReplacedOther(rows: seq<Incident>, i: nat, x: Incident, site: Site)
    requires i < |rows| && x.site == rows[i].site
    ensures Ids(rows[i := x], site) == Ids(rows, site)
    ensures x.site != site ==> Select(rows[i := x], site) == Select(rows, site)
  {
    var init, last := rows[..|rows| - 1], rows[|rows| - 1];
    if i < |init| {
      ReplacedOther(init, i, x, site);
      assert rows[i := x][..|rows| - 1] == init[i := x];
    } else {
      assert rows[i := x][..|rows| - 1] == init;
    }
  }

  lemma {:induction false} ReplacedLast(rows: seq<Incident>, x: Incident, site: Site)
    requires x.site == site && Ids(rows, site) != []
    ensures |Select(rows, site)| == |Ids(rows, site)|
    ensures var i := Ids(rows, site)[|Ids(rows, site)| - 1];
            Select(rows[i := x], site) == Select(rows, site)[|Ids(rows, site)| - 1 := x]
  {
    SameLength(rows, site);
    var init, last := rows[..|rows| - 1], rows[|rows| - 1];
    var i := Ids(rows, site)[|Ids(rows, site)| - 1];
    if last.site == site {
      assert rows[i := x][..|rows| - 1] == init;
    } else {
      ReplacedLast(init, x, site);
      assert rows[i := x][..|rows| - 1] == init[i := x];
    }
  }

  lemma {:induction false} OpenIsLast(rows: seq<Incident>, site: Site)
    ensures |Ids(rows, site)| == |Select(rows, site)|
    ensures var v := Select(rows, site);
            v != [] && v[|v| - 1].closedAt == None ==> OpenIncident(rows, site) == Some(Ids(rows, site)[|v| - 1])
    ensures (forall k :: 0 <= k < |Select(rows, site)| ==> Select(rows, site)[k].closedAt.Some?) ==> OpenIncident(rows, site) == None
  {
    SameLength(rows, site);
    if rows != [] {
      var init := rows[..|rows| - 1];
      OpenIsLast(init, site);
      var v, w := Select(rows, site), Select(init, site);
      if rows[|rows| - 1].site == site {
        assert v[|v| - 1] == rows[|rows| - 1] && v[..|v| - 1] == w;
        assert forall k :: 0 <= k < |w| ==> w[k] == v[k];
      } else {
        assert v == w;
      }
    }
  }

  // ---------------------------------------------------------------------------
  // Histories

  function After(cfg: Config, start: map<Site, Health>, run: seq<Check>): Db {
    if run == [] then Db(start, [], [], [])
    else Checked(cfg, After(cfg, start, run[..|run| - 1]), run[|run| - 1])
  }

  /** A site's own checks. */
  function Of(run: seq<Check>, site: Site): seq<Check> {
    if run == [] then []
    else
      var rest := Of(run[..|run| - 1], site);
      if run[|run| - 1].site == site then rest + [run[|run| - 1]] else rest
  }

  /** The part of the tables that is about one site. */
  datatype View = View(health: Option<Health>, ids: seq<nat>, incidents: seq<Incident>, alerts: seq<Alert>)

  function ViewOf(db: Db, site: Site): View {
    View(Row(db.health, site), Ids(db.incidents, site), Select(db.incidents, site), SelectAlerts(db.alerts, site))
  }

  /** What a site's tables hold, given its checks and the numbers of its incidents. */
  function Expected(row: Option<Health>, h: seq<Check>, site: Site, ids: seq<nat>): View
    requires |ids| == |Starts(h)|
  {
    View(HealthOf(row, h), ids, IncidentsOf(h, site), AlertsOf(h, ids, site))
  }

  /** A check of another site changes nothing about this one. */
  lemma OthersUntouched(cfg: Config, db: Db, c: Check, site: Site)
    requires c.site != site
    ensures ViewOf(Checked(cfg, db, c), site) == ViewOf(db, site)
  {
    var row := Row(db.health, c.site);
    var next := NextHealth(row, c);
    var open := OpenIncident(db.incidents, c.site);
    if open.Some? {
      ReplacedOther(db.incidents, open.value, db.incidents[open.value].(state := next.state), site);
      ReplacedOther(db.incidents, open.value, db.incidents[open.value].(state := "resolved", closedAt := Some(c.at)), site);
      AppendedAlert(db.alerts, Alert(open.value, c.site, "recovery", c.at), site);
    } else {
      Appended(db.incidents, Incident(c.site, next.state, Summary(next.state), c.at, None), site);
      AppendedAlert(db.alerts, Alert(|db.incidents|, c.site, "open", c.at), site);
    }
  }

  /** The incident that is open is the last of the site, and is open exactly while the trailing checks fail. */
  lemma OpenExactly(db: Db, row: Option<Health>, h: seq<Check>, site: Site)
    requires |Ids(db.incidents, site)| == |Starts(h)| && Select(db.incidents, site) == IncidentsOf(h, site)
    ensures Trail(h) == 0 ==> OpenIncident(db.incidents, site) == None
    ensures Trail(h) > 0 ==> Starts(h) != [] && OpenIncident(db.incidents, site) == Some(Ids(db.incidents, site)[|Starts(h)| - 1])
  {
    StartsStops(h);
    OpenIsLast(db.incidents, site);
  }

  lemma {:induction false} SelectAt(rows: seq<Incident>, site: Site, k: nat)
    requires k < |Ids(rows, site)|
    ensures |Select(rows, site)| == |Ids(rows, site)| && Select(rows, site)[k] == rows[Ids(rows, site)[k]]
  {
    SameLength(rows, site);
    var init := rows[..|rows| - 1];
    if k < |Ids(init, site)| {
      SelectAt(init, site, k);
    }
  }

  /** The state of the open incident is the site's health. */
  lemma OpenState(db: Db, row: Option<Health>, h: seq<Check>, site: Site)
    requires |Ids(db.incidents, site)| == |Starts(h)| && Select(db.incidents, site) == IncidentsOf(h, site) && Trail(h) > 0
    ensures Starts(h) != [] && db.incidents[Ids(db.incidents, site)[|Starts(h)| - 1]].state == StateOf(h)
  {
    StartsStops(h);
    SelectAt(db.incidents, site, |Starts(h)| - 1);
  }

  function NewIncident(c: Check): Incident {
    Incident(c.site, NextState(0, c), Summary(NextState(0, c)), c.at, None)
  }

  /** What the transition after a check does, by the number of failures before it. */
  function RowsAfter(rows: seq<Incident>, trail: nat, c: Check, id: nat): seq<Incident>
    requires trail > 0 ==> id < |rows|
  {
    if trail > 0 then rows[id := Aged(rows[id], true, c)]
    else if c.ok then rows
    else rows + [NewIncident(c)]
  }

  /** A health row that agrees with a number of trailing failures. */
  predicate Agrees(row: Option<Health>, trail: nat) {
    if row.None? then trail == 0
    else
      && row.value.fails == trail
      && (trail == 0 ==> row.value.state == "healthy" || row.value.state == "unknown")
      && (trail == 1 ==> row.value.state == "warning" || row.value.state == "degraded")
      && (trail >= 2 ==> row.value.state == "down")
  }

  lemma HistoryAgrees(row: Option<Health>, h: seq<Check>)
    requires Fresh(row)
    ensures Agrees(HealthOf(row, h), Trail(h)) == true
  {
    if h != [] {
      Grown(h[..|h| - 1], h[|h| - 1]);
      assert h == h[..|h| - 1] + [h[|h| - 1]];
    }
  }

  lemma Effect(cfg: Config, db: Db, row: Option<Health>, trail: nat, c: Check, id: nat)
    requires Row(db.health, c.site) == row && Agrees(row, trail)
    requires OpenIncident(db.incidents, c.site) == if trail == 0 then None else Some(id)
    requires trail == 0 ==> id == |db.incidents|
    requires trail > 0 ==> row.Some? && db.incidents[id].state == row.value.state
    ensures Row(Checked(cfg, db, c).health, c.site) == Some(NextHealth(row, c))
    ensures Checked(cfg, db, c).incidents == RowsAfter(db.incidents, trail, c, id)
    ensures Checked(cfg, db, c).alerts == db.alerts + News(trail, c, id)
  {
  }

  /** The rows of the site itself follow its own history. */
  lemma RowsAged(rows: seq<Incident>, c: Check, id: nat, n: nat)
    requires n < |Ids(rows, c.site)| && n == |Ids(rows, c.site)| - 1 && id == Ids(rows, c.site)[n]
    ensures |Select(rows, c.site)| == n + 1
    ensures Ids(rows[id := Aged(rows[id], true, c)], c.site) == Ids(rows, c.site)
    ensures Select(rows[id := Aged(rows[id], true, c)], c.site) ==
            Select(rows, c.site)[n := Aged(Select(rows, c.site)[n], true, c)]
  {
    SelectAt(rows, c.site, n);
    ReplacedOther(rows, id, Aged(rows[id], true, c), c.site);
    ReplacedLast(rows, Aged(rows[id], true, c), c.site);
  }

  lemma RowsStep(h: seq<Check>, rows: seq<Incident>, c: Check, id: nat)
    requires |Ids(rows, c.site)| == |Starts(h)| && Select(rows, c.site) == IncidentsOf(h, c.site)
    requires Trail(h) > 0 ==> Starts(h) != [] && id == Ids(rows, c.site)[|Starts(h)| - 1]
    requires Trail(h) == 0 ==> id == |rows|
    ensures Ids(RowsAfter(rows, Trail(h), c, id), c.site) == Ids(rows, c.site) + if !c.ok && Trail(h) == 0 then [id] else []
    ensures Select(RowsAfter(rows, Trail(h), c, id), c.site) == IncidentsOf(h + [c], c.site)
  {
    IncidentsStep(h, c);
    if Trail(h) > 0 {
      RowsAged(rows, c, id, |Starts(h)| - 1);
    } else if !c.ok {
      Appended(rows, NewIncident(c), c.site);
    }
  }

  lemma AlertRowsStep(rows: seq<Alert>, trail: nat, c: Check, id: nat)
    ensures SelectAlerts(rows + News(trail, c, id), c.site) == SelectAlerts(rows, c.site) + News(trail, c, id)
  {
    if News(trail, c, id) != [] {
      AppendedAlert(rows, News(trail, c, id)[0], c.site);
    } else {
      assert rows + News(trail, c, id) == rows;
    }
  }

  lemma SiteStep(cfg: Config, db: Db, row: Option<Health>, h: seq<Check>, c: Check, ids: seq<nat>)
    requires Fresh(row) && ids == Ids(db.incidents, c.site) && |ids| == |Starts(h)|
    requires ViewOf(db, c.site) == Expected(row, h, c.site, ids)
    ensures |Ids(Checked(cfg, db, c).incidents, c.site)| == |Starts(h + [c])|
    ensures ViewOf(Checked(cfg, db, c), c.site) == Expected(row, h + [c], c.site, Ids(Checked(cfg, db, c).incidents, c.site))
  {
    OpenExactly(db, row, h, c.site);
    if Trail(h) > 0 {
      OpenState(db, row, h, c.site);
    }
    var id := if Trail(h) > 0 then ids[|ids| - 1] else |db.incidents|;
    HistoryAgrees(row, h);
    Effect(cfg, db, HealthOf(row, h), Trail(h), c, id);
    HealthStep(row, h, c);
    RowsStep(h, db.incidents, c, id);
    AlertsStep(h, c, ids, ids + if !c.ok && Trail(h) == 0 then [id] else [], id);
    AlertRowsStep(db.alerts, Trail(h), c, id);
  }

  /**
   After every interleaved history, the health, the incidents and the alerts of every site are
   those of its own checks: the state and count of the trailing failures, one incident for each
   maximal run of failures, open while the run lasts and then in the site's state, and one
   opening and one recovery alert in turn.
   */
  lemma {:induction false} TablesFollowHistory(cfg: Config, start: map<Site, Health>, run: seq<Check>, site: Site)
    requires forall s :: s in start ==> Fresh(Some(start[s]))
    ensures |Ids(After(cfg, start, run).incidents, site)| == |Starts(Of(run, site))|
    ensures ViewOf(After(cfg, start, run), site) ==
            Expected(Row(start, site), Of(run, site), site, Ids(After(cfg, start, run).incidents, site))
  {
    if run == [] {
    } else {
      var init, c := run[..|run| - 1], run[|run| - 1];
      TablesFollowHistory(cfg, start, init, site);
      var db := After(cfg, start, init);
      if c.site == site {
        SiteStep(cfg, db, Row(start, site), Of(init, site), c, Ids(db.incidents, site));
      } else {
        OthersUntouched(cfg, db, c, site);
        assert ViewOf(Checked(cfg, db, c), site).ids == Ids(db.incidents, site);
      }
    }
  }

  lemma {:induction false} IdsComplete(rows: seq<Incident>, site: Site, i: nat) returns (k: nat)
    requires i < |rows| && rows[i].site == site
    ensures k < |Ids(rows, site)| && Ids(rows, site)[k] == i
  {
    var init := rows[..|rows| - 1];
    if i < |init| {
      k := IdsComplete(init, site, i);
    } else {
      k := |Ids(init, site)|;
    }
  }

  lemma {:induction false} IdsAscend(rows: seq<Incident>, site: Site, k: nat, l: nat)
    requires k < l < |Ids(rows, site)|
    ensures Ids(rows, site)[k] < Ids(rows, site)[l]
  {
    var init := rows[..|rows| - 1];
    if l < |Ids(init, site)| {
      IdsAscend(init, site, k, l);
    }
  }

  lemma OpenRow(rows: seq<Incident>, h: seq<Check>, site: Site, i: nat)
    requires Select(rows, site) == IncidentsOf(h, site) && |Ids(rows, site)| == |Starts(h)|
    requires i < |rows| && rows[i].site == site
    ensures Starts(h) != []
    ensures rows[i].closedAt == None <==> Trail(h) > 0 && i == Ids(rows, site)[|Starts(h)| - 1]
    ensures rows[i].closedAt == None ==> h != [] && rows[i].state == StateOf(h)
  {
    var k := IdsComplete(rows, site, i);
    SelectAt(rows, site, k);
    StartsStops(h);
    if k < |Starts(h)| - 1 {
      IdsAscend(rows, site, k, |Starts(h)| - 1);
    }
  }

  /** A site has an open incident exactly while its latest checks fail, only one, and it carries the site's state. */
  lemma OneOpenIncident(cfg: Config, start: map<Site, Health>, run: seq<Check>, site: Site, rows: seq<Incident>, i: nat)
    requires forall s :: s in start ==> Fresh(Some(start[s]))
    requires rows == After(cfg, start, run).incidents && i < |rows| && rows[i].site == site
    ensures |Ids(rows, site)| == |Starts(Of(run, site))| > 0
    ensures rows[i].closedAt == None <==> Trail(Of(run, site)) > 0 && i == Ids(rows, site)[|Starts(Of(run, site))| - 1]
    ensures rows[i].closedAt == None ==> Of(run, site) != [] && rows[i].state == StateOf(Of(run, site))
  {
    TablesFollowHistory(cfg, start, run, site);
    OpenRow(rows, Of(run, site), site, i);
  }

  // ---------------------------------------------------------------------------
  // Webhook deliveries

  function Summaries(rows: seq<Incident>): seq<string> {
    seq(|rows|, i requires 0 <= i < |rows| => rows[i].summary)
  }

  /** The state that an opening summary names. */
  function OpenedAs(summary: string): string {
    if |summary| < 22 then "" else summary[16..|summary| - 6]
  }

  lemma OpenedAsSummary(state: string)
    ensures OpenedAs(Summary(state)) == state
  {
    assert |"Website entered "| == 16 && |" state"| == 6;
  }

  /** What an alert owes: the opening state and summary of its incident, or its recovery. */
  function NoticeOf(summaries: seq<string>, a: Alert): Notice {
    var summary := if a.incident < |summaries| then summaries[a.incident] else "";
    if a.kind == "open" then Notice("incident.open", a.site, a.incident, OpenedAs(summary), summary, a.at)
    else RecoveryNotice(a.site, a.incident, a.at)
  }

  /** One delivery for each alert and each enabled webhook of the site's own organization. */
  function FanOut(cfg: Config, summaries: seq<string>, alerts: seq<Alert>): seq<Delivery> {
    if alerts == [] then []
    else
      var a := alerts[|alerts| - 1];
      FanOut(cfg, summaries, alerts[..|alerts| - 1]) + Deliveries(cfg.hooks, cfg.org(a.site), NoticeOf(summaries, a))
  }

  predicate InRange(alerts: seq<Alert>, n: nat) {
    forall i :: 0 <= i < |alerts| ==> alerts[i].incident < n
  }

  lemma FanOutStep(cfg: Config, summaries: seq<string>, alerts: seq<Alert>, a: Alert)
    ensures FanOut(cfg, summaries, alerts + [a]) ==
            FanOut(cfg, summaries, alerts) + Deliveries(cfg.hooks, cfg.org(a.site), NoticeOf(summaries, a))
  {
    assert (alerts + [a])[..|alerts|] == alerts;
  }

  /** Later incidents change nothing about what earlier alerts owe. */
  lemma {:induction false} FanOutGrows(cfg: Config, summaries: seq<string>, more: seq<string>, alerts: seq<Alert>)
    requires InRange(alerts, |summaries|)
    ensures FanOut(cfg, summaries + more, alerts) == FanOut(cfg, summaries, alerts)
  {
    if alerts != [] {
      var a := alerts[|alerts| - 1];
      FanOutGrows(cfg, summaries, more, alerts[..|alerts| - 1]);
      assert a.incident < |summaries|;
      assert (summaries + more)[a.incident] == summaries[a.incident];
    }
  }

  /** The outbox is what the alerts owe. */
  ghost predicate Posted(cfg: Config, db: Db) {
    InRange(db.alerts, |db.incidents|) && db.outbox == FanOut(cfg, Summaries(db.incidents), db.alerts)
  }

  lemma OpeningNotice(ss: seq<string>, site: Site, next: string, at: Time)
    ensures NoticeOf(ss + [Summary(next)], Alert(|ss|, site, "open", at)) == OpenNotice(site, |ss|, next, at)
  {
    OpenedAsSummary(next);
    assert (ss + [Summary(next)])[|ss|] == Summary(next);
  }

  lemma SummariesSnoc(rows: seq<Incident>, x: Incident)
    ensures Summaries(rows + [x]) == Summaries(rows) + [x.summary]
  {
  }

  lemma PostedOpening(cfg: Config, db: Db, site: Site, next: string, at: Time)
    requires Posted(cfg, db) && OpenIncident(db.incidents, site) == None && next != "healthy"
    ensures Posted(cfg, Transition(cfg, db, site, next, at)) == true
  {
    var ss := Summaries(db.incidents);
    SummariesSnoc(db.incidents, Incident(site, next, Summary(next), at, None));
    FanOutGrows(cfg, ss, [Summary(next)], db.alerts);
    FanOutStep(cfg, ss + [Summary(next)], db.alerts, Alert(|ss|, site, "open", at));
    OpeningNotice(ss, site, next, at);
  }

  lemma PostedOpen(cfg: Config, db: Db, site: Site, next: string, at: Time, i: nat)
    requires Posted(cfg, db) && OpenIncident(db.incidents, site) == Some(i)
    ensures Posted(cfg, Transition(cfg, db, site, next, at)) == true
  {
    var ss := Summaries(db.incidents);
    assert Summaries(db.incidents[i := db.incidents[i].(state := next)]) == ss;
    assert Summaries(db.incidents[i := db.incidents[i].(state := "resolved", closedAt := Some(at))]) == ss;
    FanOutStep(cfg, ss, db.alerts, Alert(i, site, "recovery", at));
  }

  lemma PostedStep(cfg: Config, db: Db, site: Site, next: string, at: Time)
    requires Posted(cfg, db)
    ensures Posted(cfg, Transition(cfg, db, site, next, at)) == true
  {
    var open := OpenIncident(db.incidents, site);
    if open.Some? {
      PostedOpen(cfg, db, site, next, at, open.value);
    } else if next != "healthy" {
      PostedOpening(cfg, db, site, next, at);
    }
  }

  /** The outbox is, alert by alert, what the enabled webhooks of the site's organization are owed, payload included. */
  lemma {:induction false} OutboxIsFanOut(cfg: Config, start: map<Site, Health>, run: seq<Check>)
    ensures Posted(cfg, After(cfg, start, run))
  {
    if run != [] {
      var c := run[|run| - 1];
      var db := After(cfg, start, run[..|run| - 1]);
      OutboxIsFanOut(cfg, start, run[..|run| - 1]);
      var next := NextHealth(Row(db.health, c.site), c);
      PostedStep(cfg, db.(health := db.health[c.site := next]), c.site, next.state, c.at);
    }
  }

  predicate Owed(w: Webhook, org: string, id: nat) {
    w.id == id && w.enabled && w.org == org
  }

  function OwedCount(hooks: seq<Webhook>, org: string, id: nat): nat {
    if hooks == [] then 0
    else OwedCount(hooks[..|hooks| - 1], org, id) + if Owed(hooks[|hooks| - 1], org, id) then 1 else 0
  }

  /** A notice is delivered once for each enabled webhook of the site's own organization, and to nobody else. */
  lemma {:induction false} DeliveriesExact(hooks: seq<Webhook>, org: string, n: Notice, d: Delivery)
    ensures multiset(Deliveries(hooks, org, n))[d] == if d.notice == n then OwedCount(hooks, org, d.webhook) else 0
  {
    if hooks != [] {
      DeliveriesExact(hooks[..|hooks| - 1], org, n, d);
    }
  }

  lemma {:induction false} OwedOnce(hooks: seq<Webhook>, org: string, i: nat)
    requires i < |hooks| && forall j, k :: 0 <= j < k < |hooks| ==> hooks[j].id != hooks[k].id
    ensures OwedCount(hooks, org, hooks[i].id) == if hooks[i].enabled && hooks[i].org == org then 1 else 0
  {
    var init := hooks[..|hooks| - 1];
    if i < |init| {
      OwedOnce(init, org, i);
    } else {
      OwedNone(init, org, hooks[i].id);
    }
  }

  lemma {:induction false} OwedNone(hooks: seq<Webhook>, org: string, id: nat)
    requires forall j :: 0 <= j < |hooks| ==> hooks[j].id != id
    ensures OwedCount(hooks, org, id) == 0
  {
    if hooks != [] {
      OwedNone(hooks[..|hooks| - 1], org, id);
    }
  }

  /** With distinct webhooks: exactly one delivery to each that is enabled and of the organization, none to any other. */
  lemma DeliveredOnce(hooks: seq<Webhook>, org: string, n: Notice, i: nat)
    requires i < |hooks| && forall j, k :: 0 <= j < k < |hooks| ==> hooks[j].id != hooks[k].id
    ensures multiset(Deliveries(hooks, org, n))[Delivery(hooks[i].id, n)] ==
            if hooks[i].enabled && hooks[i].org == org then 1 else 0
  {
    DeliveriesExact(hooks, org, n, Delivery(hooks[i].id, n));
    OwedOnce(hooks, org, i);
  }
}
