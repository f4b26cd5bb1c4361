/**
 Health and incidents are written in two transactions. What holds when the second one is
 cut off at any checks, and exactly when the open incident still agrees with the health.
 */
module Interruptions {
  import opened Basics
  import opened Incidents

  /** A check, and whether the transition after its health row was cut off. */
  datatype Attempt = Attempt(check: Check, cut: bool)

  function Checks(h: seq<Attempt>): seq<Check> {
    seq(|h|, i requires 0 <= i < |h| => h[i].check)
  }

  function AfterCuts(cfg: Config, start: map<Site, Health>, run: seq<Attempt>): Db {
    if run == [] then Db(start, [], [], [])
    else
      var a := run[|run| - 1];
      CheckedUnless(cfg, AfterCuts(cfg, start, run[..|run| - 1]), a.check, a.cut)
  }

  function OfSite(run: seq<Attempt>, site: Site): seq<Attempt> {
    if run == [] then []
    else
      var rest := OfSite(run[..|run| - 1], site);
      if run[|run| - 1].check.site == site then rest + [run[|run| - 1]] else rest
  }

  // ---------------------------------------------------------------------------
  // What the history says

  /** The state an incident carries: none for a healthy site. */
  function Carried(state: string): Option<string> {
    if state == "healthy" then None else Some(state)
  }

  /** The last check of the history changed the site's state. */
  predicate Changes(h: seq<Check>)
    requires h != []
  {
    |h| == 1 || StateOf(h[..|h| - 1]) != StateOf(h)
  }

  /** What the last state change that was not cut off reported. */
  function Reported(h: seq<Attempt>): Option<string> {
    if h == [] then None
    else if Changes(Checks(h)) && !h[|h| - 1].cut then Carried(StateOf(Checks(h)))
    else Reported(h[..|h| - 1])
  }

  /** What an incident should carry. */
  function Current(h: seq<Attempt>): Option<string> {
    if h == [] then None else Carried(StateOf(Checks(h)))
  }

  // ---------------------------------------------------------------------------
  // The open incident of a site

  predicate IsOpen(rows: seq<Incident>, site: Site, i: nat) {
    i < |rows| && rows[i].site == site && rows[i].closedAt == None
  }

  lemma {:induction false} OpenNone(rows: seq<Incident>, site: Site)
    ensures OpenIncident(rows, site) == None <==> forall i: nat :: !IsOpen(rows, site, i)
  {
    if rows != [] {
      var init, n := rows[..|rows| - 1], |rows| - 1;
      OpenNone(init, site);
      assert forall i: nat :: i < n ==> (IsOpen(rows, site, i) <==> IsOpen(init, site, i));
      if OpenIncident(rows, site) == None {
        assert !IsOpen(rows, site, n);
      } else if rows[n].site == site && rows[n].closedAt == None {
        assert IsOpen(rows, site, n);
      } else {
        var i: nat :| IsOpen(init, site, i);
        assert IsOpen(rows, site, i);
      }
    }
  }

  /** There is exactly one open incident, the given one, or none. */
  ghost predicate OnlyOpen(rows: seq<Incident>, site: Site, open: Option<nat>) {
    forall i: nat :: IsOpen(rows, site, i) <==> open == Some(i)
  }

  lemma OnlyOpenFound(rows: seq<Incident>, site: Site, open: Option<nat>)
    requires OnlyOpen(rows, site, open)
    ensures OpenIncident(rows, site) == open
  {
    OpenNone(rows, site);
    if open.Some? {
      assert IsOpen(rows, site, open.value);
      assert IsOpen(rows, site, OpenIncident(rows, site).value);
    }
  }

  /** The site's only open incident carries the state. */
  ghost predicate Carries(rows: seq<Incident>, site: Site, state: Option<string>) {
    var open := OpenIncident(rows, site);
    OnlyOpen(rows, site, open) && state == if open == None then None else Some(rows[open.value].state)
  }

  lemma CarriesIs(rows: seq<Incident>, site: Site, open: Option<nat>, state: Option<string>)
    requires OnlyOpen(rows, site, open)
    requires open.Some? ==> open.value < |rows| && state == Some(rows[open.value].state)
    requires open.None? ==> state == None
    ensures Carries(rows, site, state) == true
  {
    OnlyOpenFound(rows, site, open);
  }

  /** A transition leaves the site with one open incident in the new state, or with none. */
  lemma TransitionCarries(cfg: Config, db: Db, site: Site, next: string, at: Time, state: Option<string>)
    requires Carries(db.incidents, site, state)
    ensures Carries(Transition(cfg, db, site, next, at).incidents, site, Carried(next)) == true
    ensures OpenIncident(Transition(cfg, db, site, next, at).incidents, site) ==
            if next == "healthy" then None
            else if OpenIncident(db.incidents, site).Some? then OpenIncident(db.incidents, site)
            else Some(|db.incidents|)
  {
    var rows, open := db.incidents, OpenIncident(db.incidents, site);
    var rows' := Transition(cfg, db, site, next, at).incidents;
    var open' := if next == "healthy" then None else if open.Some? then open else Some(|rows|);
    forall i: nat ensures IsOpen(rows', site, i) <==> open' == Some(i) {
      assert IsOpen(rows, site, i) <==> open == Some(i);
    }
    CarriesIs(rows', site, open', Carried(next));
    OnlyOpenFound(rows', site, open');
  }

  lemma TransitionElsewhere(cfg: Config, db: Db, site: Site, other: Site, next: string, at: Time, state: Option<string>)
    requires other != site && Carries(db.incidents, other, state)
    ensures Carries(Transition(cfg, db, site, next, at).incidents, other, state) == true
    ensures OpenIncident(Transition(cfg, db, site, next, at).incidents, other) == OpenIncident(db.incidents, other)
  {
    var rows, open := db.incidents, OpenIncident(db.incidents, other);
    var rows' := Transition(cfg, db, site, next, at).incidents;
    forall i: nat ensures IsOpen(rows', other, i) <==> open == Some(i) {
      assert IsOpen(rows, other, i) <==> open == Some(i);
    }
    CarriesIs(rows', other, open, state);
    OnlyOpenFound(rows', other, open);
  }

  // ---------------------------------------------------------------------------
  // Histories with cuts

  lemma ChecksSnoc(h: seq<Attempt>, a: Attempt)
    ensures Checks(h + [a]) == Checks(h) + [a.check]
  {
  }

  lemma ReportedSnoc(h: seq<Attempt>, a: Attempt)
    ensures Reported(h + [a]) ==
            if (h == [] || StateOf(Checks(h)) != StateOf(Checks(h) + [a.check])) && !a.cut
            then Carried(StateOf(Checks(h) + [a.check])) else Reported(h)
  {
    var g := h + [a];
    ChecksSnoc(h, a);
    assert g[..|h|] == h && Checks(g)[..|h|] == Checks(h);
  }

  /** What is known of one site after a history with cuts. */
  ghost predicate Follows(db: Db, row: Option<Health>, site: Site, h: seq<Attempt>) {
    Row(db.health, site) == HealthOf(row, Checks(h)) && Carries(db.incidents, site, Reported(h))
  }

  lemma FollowsOther(cfg: Config, db: Db, row: Option<Health>, site: Site, h: seq<Attempt>, a: Attempt)
    requires Follows(db, row, site, h) && a.check.site != site
    ensures Follows(CheckedUnless(cfg, db, a.check, a.cut), row, site, h) == true
  {
    var c := a.check;
    var next := NextHealth(Row(db.health, c.site), c);
    TransitionElsewhere(cfg, db.(health := db.health[c.site := next]), c.site, site, next.state, c.at, Reported(h));
  }

  /** Whether a check changes the stored state is a matter of the history. */
  lemma StateChanges(row: Option<Health>, h: seq<Check>, c: Check, next: Health)
    requires Fresh(row) && next == NextHealth(HealthOf(row, h), c)
    ensures next.state == StateOf(h + [c])
    ensures (HealthOf(row, h).Some? && HealthOf(row, h).value.state == next.state) <==> h != [] && StateOf(h) == StateOf(h + [c])
  {
    HealthStep(row, h, c);
    Grown(h, c);
  }

  lemma FollowsOwn(cfg: Config, db: Db, row: Option<Health>, h: seq<Attempt>, a: Attempt)
    requires Fresh(row) && Follows(db, row, a.check.site, h)
    ensures Follows(CheckedUnless(cfg, db, a.check, a.cut), row, a.check.site, h + [a]) == true
  {
    var c := a.check;
    var next := NextHealth(Row(db.health, c.site), c);
    ChecksSnoc(h, a);
    HealthStep(row, Checks(h), c);
    StateChanges(row, Checks(h), c, next);
    ReportedSnoc(h, a);
    assert h == [] <==> Checks(h) == [];
    TransitionCarries(cfg, db.(health := db.health[c.site := next]), c.site, next.state, c.at, Reported(h));
  }

  /**
   After every history with cuts, health follows the site's checks, and there is at most one
   open incident: the one that the last state change not cut off left.
   */
  lemma {:induction false} CutsFollowed(cfg: Config, start: map<Site, Health>, run: seq<Attempt>, site: Site)
    requires forall s :: s in start ==> Fresh(Some(start[s]))
    ensures Follows(AfterCuts(cfg, start, run), Row(start, site), site, OfSite(run, site)) == true
  {
    if run == [] {
      assert OnlyOpen([], site, None);
      CarriesIs([], site, None, None);
      assert Checks([]) == [];
    } else {
      var init, a := run[..|run| - 1], run[|run| - 1];
      CutsFollowed(cfg, start, init, site);
      if a.check.site == site {
        FollowsOwn(cfg, AfterCuts(cfg, start, init), Row(start, site), OfSite(init, site), a);
      } else {
        FollowsOther(cfg, AfterCuts(cfg, start, init), Row(start, site), site, OfSite(init, site), a);
      }
    }
  }

  /** The open incident agrees with the health: one in the site's state while its checks fail, none otherwise. */
  ghost predicate Agrees(rows: seq<Incident>, site: Site, h: seq<Attempt>) {
    Carries(rows, site, Current(h))
  }

  /**
   So the open incident agrees with the health exactly when the last state change that was
   not cut off led to the present state.
   */
  lemma AgreesExactly(cfg: Config, start: map<Site, Health>, run: seq<Attempt>, site: Site)
    requires forall s :: s in start ==> Fresh(Some(start[s]))
    ensures Agrees(AfterCuts(cfg, start, run).incidents, site, OfSite(run, site)) <==>
            Reported(OfSite(run, site)) == Current(OfSite(run, site))
  {
    CutsFollowed(cfg, start, run, site);
  }

  /** Check `m` of the history changed the site's state. */
  predicate ChangesAt(h: seq<Attempt>, m: nat) {
    m < |h| && Changes(Checks(h[..m + 1]))
  }

  lemma ChangesLast(h: seq<Attempt>)
    requires h != []
    ensures ChangesAt(h, |h| - 1) <==> Changes(Checks(h))
  {
    assert h[..|h| - 1 + 1] == h;
  }

  lemma ChangesBefore(h: seq<Attempt>, n: nat, m: nat)
    requires m < n <= |h|
    ensures ChangesAt(h[..n], m) <==> ChangesAt(h, m)
  {
    assert h[..n][..m + 1] == h[..m + 1];
  }

  /** A cut is never made up for while the state stays as it is. */
  lemma {:induction false} DisagreementStays(h: seq<Attempt>, n: nat)
    requires n <= |h| && forall m :: n <= m < |h| ==> !ChangesAt(h, m)
    ensures Reported(h) == Reported(h[..n])
    decreases |h|
  {
    if n == |h| {
      assert h[..n] == h;
    } else {
      var init := h[..|h| - 1];
      ChangesLast(h);
      assert !ChangesAt(h, |h| - 1);
      assert init[..n] == h[..n];
      forall m | n <= m < |init| ensures !ChangesAt(init, m) {
        ChangesBefore(h, |init|, m);
      }
      DisagreementStays(init, n);
    }
  }

  lemma CurrentStays(h: seq<Attempt>)
    requires |h| > 1 && !Changes(Checks(h))
    ensures Current(h) == Current(h[..|h| - 1])
  {
    assert Checks(h)[..|h| - 1] == Checks(h[..|h| - 1]);
  }

  lemma {:induction false} StateStays(h: seq<Attempt>, n: nat)
    requires 0 < n <= |h| && forall m :: n <= m < |h| ==> !ChangesAt(h, m)
    ensures Current(h) == Current(h[..n])
    decreases |h|
  {
    if n == |h| {
      assert h[..n] == h;
    } else {
      var init := h[..|h| - 1];
      ChangesLast(h);
      assert !ChangesAt(h, |h| - 1);
      assert init[..n] == h[..n];
      CurrentStays(h);
      forall m | n <= m < |init| ensures !ChangesAt(init, m) {
        ChangesBefore(h, |init|, m);
      }
      StateStays(init, n);
    }
  }

  /** The open incident agrees in particular when the site's latest state change was not cut off. */
  lemma LastChangeDecides(h: seq<Attempt>, n: nat)
    requires ChangesAt(h, n) && !h[n].cut && forall m :: n < m < |h| ==> !ChangesAt(h, m)
    ensures Reported(h) == Current(h)
  {
    DisagreementStays(h, n + 1);
    StateStays(h, n + 1);
    assert h[..n + 1][n] == h[n];
  }

  // ---------------------------------------------------------------------------
  // Histories that disagree

  function Failure(site: Site): Check {
    Check(site, false, "timeout", "t")
  }

  function Success(site: Site): Check {
    Check(site, true, "", "t")
  }

  /** A history of one site: two first checks, then `n` more of one kind, none of which is cut off. */
  function Then(first: Attempt, second: Attempt, c: Check, n: nat): seq<Attempt> {
    [first, second] + seq(n, i requires 0 <= i => Attempt(c, false))
  }

  lemma {:induction false} OfSiteAll(run: seq<Attempt>, site: Site)
    requires forall i :: 0 <= i < |run| ==> run[i].check.site == site
    ensures OfSite(run, site) == run
  {
    if run != [] {
      OfSiteAll(run[..|run| - 1], site);
    }
  }

  lemma ChecksAt(h: seq<Attempt>, m: nat)
    requires m < |h|
    ensures Checks(h[..m + 1])[..m] == Checks(h[..m]) && Checks(h[..m + 1])[m] == h[m].check && |Checks(h[..m + 1])| == m + 1
  {
  }

  /** The state after a success is healthy, after a second failure in a row it is down. */
  lemma StateAt(h: seq<Attempt>, m: nat)
    requires m < |h|
    ensures h[m].check.ok ==> StateOf(Checks(h[..m + 1])) == "healthy"
    ensures !h[m].check.ok && m > 0 && !h[m - 1].check.ok ==> StateOf(Checks(h[..m + 1])) == "down"
  {
    ChecksAt(h, m);
    if m > 0 {
      ChecksAt(h, m - 1);
      assert Checks(h[..m]) == Checks(h[..m - 1 + 1]);
    }
  }

  /** Two checks of one outcome after another of that outcome change nothing. */
  lemma NoChange(h: seq<Attempt>, m: nat)
    requires 1 < m < |h| && h[m].check.ok == h[m - 1].check.ok && (h[m].check.ok || !h[m - 2].check.ok)
    ensures !ChangesAt(h, m)
  {
    StateAt(h, m);
    StateAt(h, m - 1);
    ChecksAt(h, m);
    assert h[..m - 1 + 1] == h[..m];
  }

  lemma ThenStays(first: Attempt, second: Attempt, c: Check, n: nat)
    requires second.check.ok == c.ok && (c.ok || !first.check.ok)
    ensures Reported(Then(first, second, c, n)) == Reported([first, second])
    ensures Current(Then(first, second, c, n)) == Current([first, second])
  {
    var h := Then(first, second, c, n);
    forall m | 2 <= m < |h| ensures !ChangesAt(h, m) {
      NoChange(h, m);
    }
    assert h[..2] == [first, second];
    DisagreementStays(h, 2);
    StateStays(h, 2);
  }

  lemma TwoReported(first: Attempt, second: Attempt)
    ensures Reported([first, second]) ==
            if StateOf([first.check]) != StateOf([first.check, second.check]) && !second.cut
            then Carried(StateOf([first.check, second.check]))
            else if first.cut then None else Carried(StateOf([first.check]))
    ensures Current([first, second]) == Carried(StateOf([first.check, second.check]))
  {
    var h := [first, second];
    assert Checks(h) == [first.check, second.check] && Checks(h)[..1] == [first.check];
    assert h[..1] == [first] && [first][..0] == [] && Checks([first]) == [first.check];
    assert Changes([first.check]) && Reported([]) == None;
    assert Reported([first]) == if first.cut then None else Carried(StateOf([first.check]));
    assert Changes(Checks(h)) <==> StateOf([first.check]) != StateOf([first.check, second.check]);
    assert h[|h| - 1] == second && h[..|h| - 1] == [first];
  }

  lemma TwoStates(a: Check, b: Check)
    ensures StateOf([a]) == NextState(0, a) && StateOf([a, b]) == NextState(if a.ok then 0 else 1, b)
  {
    assert [a][..0] == [] && [a, b][..1] == [a];
  }

  /** A cut at an outage's first two checks leaves it without an incident for as long as it lasts. */
  lemma CutHidesOutage(cfg: Config, site: Site, n: nat)
    ensures var run := Then(Attempt(Failure(site), true), Attempt(Failure(site), true), Failure(site), n);
            !Agrees(AfterCuts(cfg, map[], run).incidents, site, OfSite(run, site))
            && OpenIncident(AfterCuts(cfg, map[], run).incidents, site) == None && Current(OfSite(run, site)) == Some("down")
  {
    var first := Attempt(Failure(site), true);
    var run := Then(first, first, Failure(site), n);
    OfSiteAll(run, site);
    TwoStates(first.check, first.check);
    TwoReported(first, first);
    ThenStays(first, first, Failure(site), n);
    CutsFollowed(cfg, map[], run, site);
    AgreesExactly(cfg, map[], run, site);
  }

  /** A cut at the recovery leaves the incident open for as long as the site is healthy. */
  lemma CutLeavesOpen(cfg: Config, site: Site, n: nat)
    ensures var run := Then(Attempt(Failure(site), false), Attempt(Success(site), true), Success(site), n);
            !Agrees(AfterCuts(cfg, map[], run).incidents, site, OfSite(run, site))
            && OpenIncident(AfterCuts(cfg, map[], run).incidents, site).Some? && Current(OfSite(run, site)) == None
  {
    var first, second := Attempt(Failure(site), false), Attempt(Success(site), true);
    var run := Then(first, second, Success(site), n);
    OfSiteAll(run, site);
    TwoStates(first.check, second.check);
    TwoReported(first, second);
    ThenStays(first, second, Success(site), n);
    CutsFollowed(cfg, map[], run, site);
    AgreesExactly(cfg, map[], run, site);
  }

  // ---------------------------------------------------------------------------
  // Alerts and deliveries

  /** Open and recovery in turn, each pair about one incident, and the last opening not recovered is about the open one. */
  predicate Alternates(alerts: seq<Alert>, open: Option<nat>) {
    && (forall n :: 0 <= n < |alerts| ==> alerts[n].kind == if n % 2 == 0 then "open" else "recovery")
    && (forall n :: 0 < n < |alerts| && n % 2 == 1 ==> alerts[n].incident == alerts[n - 1].incident)
    && (|alerts| % 2 == 1 <==> open.Some?)
    && (open.Some? ==> alerts[|alerts| - 1].incident == open.value)
  }

  lemma AlternatesOpening(alerts: seq<Alert>, a: Alert)
    requires Alternates(alerts, None) && a.kind == "open"
    ensures Alternates(alerts + [a], Some(a.incident)) == true
  {
  }

  lemma AlternatesRecovery(alerts: seq<Alert>, a: Alert)
    requires Alternates(alerts, Some(a.incident)) && a.kind == "recovery"
    ensures Alternates(alerts + [a], None) == true
  {
  }

  lemma TransitionAlternates(cfg: Config, db: Db, site: Site, next: string, at: Time, state: Option<string>)
    requires Carries(db.incidents, site, state)
    requires Alternates(SelectAlerts(db.alerts, site), OpenIncident(db.incidents, site))
    ensures var u := Transition(cfg, db, site, next, at);
            Alternates(SelectAlerts(u.alerts, site), OpenIncident(u.incidents, site)) == true
  {
    var open := OpenIncident(db.incidents, site);
    TransitionCarries(cfg, db, site, next, at, state);
    if open.Some? && next == "healthy" {
      var a := Alert(open.value, site, "recovery", at);
      AppendedAlert(db.alerts, a, site);
      AlternatesRecovery(SelectAlerts(db.alerts, site), a);
    } else if open.None? && next != "healthy" {
      var a := Alert(|db.incidents|, site, "open", at);
      AppendedAlert(db.alerts, a, site);
      AlternatesOpening(SelectAlerts(db.alerts, site), a);
    }
  }

  lemma AlertsElsewhere(cfg: Config, db: Db, site: Site, other: Site, next: string, at: Time)
    requires other != site
    ensures SelectAlerts(Transition(cfg, db, site, next, at).alerts, other) == SelectAlerts(db.alerts, other)
  {
    var open := OpenIncident(db.incidents, site);
    AppendedAlert(db.alerts, Alert(|db.incidents|, site, "open", at), other);
    if open.Some? {
      AppendedAlert(db.alerts, Alert(open.value, site, "recovery", at), other);
    }
  }

  lemma StepAlternates(cfg: Config, db: Db, site: Site, a: Attempt, state: Option<string>)
    requires Carries(db.incidents, site, state)
    requires Alternates(SelectAlerts(db.alerts, site), OpenIncident(db.incidents, site))
    ensures var u := CheckedUnless(cfg, db, a.check, a.cut);
            Alternates(SelectAlerts(u.alerts, site), OpenIncident(u.incidents, site)) == true
  {
    var c := a.check;
    var next := NextHealth(Row(db.health, c.site), c);
    var db1 := db.(health := db.health[c.site := next]);
    if c.site == site {
      TransitionAlternates(cfg, db1, site, next.state, c.at, state);
    } else {
      AlertsElsewhere(cfg, db1, c.site, site, next.state, c.at);
      TransitionElsewhere(cfg, db1, c.site, site, next.state, c.at, state);
    }
  }

  /** After every history with cuts a site's alerts still alternate, an odd number of them exactly while an incident is open. */
  lemma {:induction false} CutsAlternate(cfg: Config, start: map<Site, Health>, run: seq<Attempt>, site: Site)
    requires forall s :: s in start ==> Fresh(Some(start[s]))
    ensures var db := AfterCuts(cfg, start, run);
            Alternates(SelectAlerts(db.alerts, site), OpenIncident(db.incidents, site)) == true
  {
    if run != [] {
      var init := run[..|run| - 1];
      CutsAlternate(cfg, start, init, site);
      CutsFollowed(cfg, start, init, site);
      StepAlternates(cfg, AfterCuts(cfg, start, init), site, run[|run| - 1], Reported(OfSite(init, site)));
    }
  }

  /** And the deliveries are still what the alerts owe. */
  lemma {:induction false} CutsPosted(cfg: Config, start: map<Site, Health>, run: seq<Attempt>)
    ensures Posted(cfg, AfterCuts(cfg, start, run)) == true
  {
    if run != [] {
      var a := run[|run| - 1];
      var db := AfterCuts(cfg, start, run[..|run| - 1]);
      CutsPosted(cfg, start, run[..|run| - 1]);
      var next := NextHealth(Row(db.health, a.check.site), a.check);
      PostedStep(cfg, db.(health := db.health[a.check.site := next]), a.check.site, next.state, a.check.at);
    }
  }
}
