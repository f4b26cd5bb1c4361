# Web Fleet, modelled in Dafny

A model of the parts of Web Fleet that are state machines, protocols or small algorithms, and
proofs of what they guarantee over every input and every run. `dafny verify dfyconfig.toml`
checks everything.

| files | what they are about |
|---|---|
| `Fleet`, `FleetTables`, `FleetRows`, `FleetRestore`, `FleetReconcile`, `FleetFsm`, `FleetHistory`, `FleetService` | the replicated fleet configuration: tables with local row ids, the log-driven state machine, snapshots and restore by reconciliation, and replicas over whole histories |
| `Crawler` | the bounded breadth-first crawl of one site and its counters |
| `ManagedUnit`, `UnitReading`, `UnitAcceptance`, `Machines`, `Installer`, `Updater` | the checksummed unit file and when it is accepted, and install, update and rollback of the service on a machine where every step can fail |
| `Claims` | fenced scheduler claims among any number of workers |
| `Rotation`, `Pairing` | credential rotation between two nodes with lost messages; pairing by invitation |
| `Incidents`, `Interruptions` | check results to health, incidents, alerts and webhook deliveries |
| `RateLimiter`, `Geo`, `GeoCoverage`, `Placeholders` | the fixed-window limiter, the country index, SQL placeholder rewriting |
| `Basics` | an option type and a few lemmas about sets and sequences |

## How the system is modelled

- A replica's tables have local numeric row ids; `FleetTables.View` is the configuration keyed by
  cluster id. Replicas agree when their views, their applied operations and their latched failures
  are equal. A transaction computes new tables and commits them or drops them.
- Digests are injective, so a payload or a secret stands for its digest; random values are drawn
  from a counter and never repeat. Stored times are compared only by their order.
- A well-formed log gives each cluster id one identity: a group keeps organization and name, a site
  keeps organization and creation time, and operation ids are not empty. This is what the handlers
  produce (internal/server/server.go:1366-1368, 1430-1432, 1562). The same organizations exist on
  every replica, and every row has a cluster id (internal/runtime/replication.go:53-62).
- The web a crawl sees is an arbitrary function from URLs to responses; the extractors' results are
  part of the response.
- A verb of the service manager that succeeds does what it says; one that fails may leave what it
  acts on (enablement, activity or the loaded unit) in any condition. A copy is a rename at the end,
  so it happens entirely or not at all; a failed write may leave any content; a removal whose error
  is ignored may leave the file. Stopping a failed service leaves it failed until its failure is
  cleared, and a stop that fails leaves a service that was not running as it is. A running service
  remembers the executable and the unit it was started from, so restarting in the wrong order would
  show.
- A ghost counter on the machine counts failed steps, so that contracts can say what happens when
  nothing fails.
- Scheduler workers have non-empty names (internal/scheduler/scheduler.go:261).
- Incoming credentials are checked against the current one, or a live pending one, which is then
  promoted (internal/cluster/transport.go:65-73).

## Where the code does less than its comments say

- internal/cluster/transport.go:120-124 says an expired rotation never strands the pair. It does when
  the rotation request itself was carried by the fallback secret and the pending credential then
  expires unused; `Rotation.StrandedExactly` proves that this is the only way, and by
  `Rotation.TwoIdleRotationsStrand` two rotations that nothing uses in between do it to every pair.
- internal/service/service.go:193-194 says no user-supplied value can inject directives into a unit.
  719-744 validates data directory and listener but not the environment file: each line of it after
  the first becomes a line of the unit (`UnitAcceptance.FurtherLinesInjected`), and the unit has the
  lines of its template if and only if the value has no newline (`UnitAcceptance.TemplateExactly`).
  Such a unit is accepted again unless a further line looks like a record; a percent sign or a control
  character on the first line makes every later install refuse. `UnitAcceptance.BootstrapAccepted` and
  `Installer.NextInstallExactly` are the exact conditions, and `ManagedUnit.BootstrapRoundTrip` says
  when the values are read back unchanged.
- internal/service/service.go:1269-1281 and 1437-1442: an update that fails while its artifact is
  copied has already replaced what an earlier update saved, so the rollback after it changes nothing
  (`Updater.RollbackUndoesUpdate`). A rollback to a stopped state does not stop a service started
  since (`Updater.RollbackLeavesRunning`, exactly: `Updater.RollbackStateExactly`).
- internal/service/service.go:788-791 takes an executable in place that cannot be read for absent: it
  is not backed up, and 850-851 removes it when the install fails. 847-853 removes the backup copy
  also when copying it back failed, so an incomplete rollback can lose a readable one. The contract of
  `Installer.Install` says where the executable is in each case; `Installer.ExecutableLostExactly`.
- internal/cluster/pairing.go:186-188: when the reply that carries a credential is lost, the join waits
  for ever (`Pairing.GrantOutcome`, `Pairing.WaitingForever`).
- internal/replicated/fsm.go:273-320: a snapshot does not carry the latched failure
  (`FleetFsm.LatchedSnapshotDiverges`, exactly: `FleetHistory.InstallAgreesExactly`);
  internal/replicated/fsm.go:86-90 does not reload an operation whose id is empty
  (`FleetFsm.ReloadExact`); with a renamed group, restore can fail
  (`FleetHistory.RenameBreaksRestore`).
- internal/geo/geo.go:135-147 keeps rows whose end is before their start, and overlapping ones; such
  rows can hide addresses of other ranges (`Geo.HiddenRanges`). `GeoCoverage.FindsExactly` and
  `GeoCoverage.AnswersExactly` say from the rows alone exactly when lookups are right.
- internal/monitor/monitor.go:238-251 writes health and incidents in two transactions. After an
  interruption between them an incident can stay open, or stay unopened, for as long as the state does
  not change (`Interruptions.CutLeavesOpen`, `Interruptions.CutHidesOutage`);
  `Interruptions.AgreesExactly` is the exact condition.
- internal/database/database.go:16-35 swallows a digit that directly follows a placeholder
  (`Placeholders.DigitSwallowed`); `Placeholders.RebindExact` is the exact condition.

## Form of the contracts

`P(x) == true` in a contract or an invariant says the same as `P(x)`. It keeps the verifier from
splitting a predicate into its conjuncts and proving each anew at every use, which would be too
costly for the long invariants here.

Where a method is proved against a specification function, further clauses say the same on the
fields, rows, rules and texts themselves, so that what it does can be read without the function.

## Model

| member | source | states |
|---|---|---|
| `Fleet.RunKeepsCoherent` | internal/replicated/fsm.go:161-272 | every command keeps names unique per organization, group references resolvable and the archive time absent or equal to the update time |
| `Fleet.RunKeepsConforming` | internal/replicated/fsm.go:161-272 | commands that respect the identities of their cluster ids keep the configuration in accordance with them |
| `Fleet.RunGrowsGroups` | internal/replicated/fsm.go:161-272 | no command removes a group or changes its creation time |
| `Fleet.ConflictPersists` | internal/replicated/fsm.go:163-172 | a name conflict is not resolved by any later configuration of the same log |
| `FleetTables.NextId` | internal/store/store.go:44-49 | a new row id is not in use |
| `FleetTables.PutGroupSimulates` | internal/replicated/fsm.go:163-189 | writing a group row by cluster id has the effect, or the conflict, that the configuration keyed by cluster id has, whatever the row ids |
| `FleetTables.PutSiteSimulates` | internal/replicated/fsm.go:190-236 | the same for a site, its group reference resolved through the local row id |
| `FleetTables.InsertTagsExact` | internal/replicated/fsm.go:260-267 | inserting tags one by one succeeds exactly when none repeats, and adds exactly those |
| `FleetTables.SetTagsSimulates` | internal/replicated/fsm.go:251-268 | replacing a site's tags has the keyed effect, including its failures |
| `FleetTables.ArchiveSimulates` | internal/replicated/fsm.go:237-247 | archiving or unarchiving a site has the keyed effect, and is a no-op for an unknown one |
| `FleetTables.MaterializeSimulates` | internal/replicated/fsm.go:161-272 | every command succeeds, conflicts or fails on the tables exactly as on the keyed configuration, and the resulting view is the keyed result |
| `FleetRows.RefusedExactly` | internal/replicated/fsm.go:161-272 | a command fails on the rows exactly when another group has the name, the organization, group or site is missing, a tag repeats, or it does not decode, and with that error |
| `FleetRows.MaterializeMeans` | internal/replicated/fsm.go:161-272 | what a command that succeeds does to the rows: a deletion removes the row of that cluster id with its tags and local rows and nothing else, archiving touches only archive and update time, an upsert keeps the unchangeable columns and local rows, tags are replaced as a whole |
| `FleetRestore.RestoreSimulates` | internal/replicated/fsm.go:332-434 | restoring rows in place (upserts, deletions of stale rows, tags) has the effect of the restore on the keyed configuration |
| `FleetRestore.RestoreKeepsRows` | internal/replicated/fsm.go:350-414 | every cluster id present before and in the snapshot keeps its local row id |
| `FleetRows.SnapshotMeans` | internal/replicated/fsm.go:273-320 | a snapshot lists each group row and each site row once with its columns and tags, and nothing else |
| `FleetRows.RestoreBringsBack` | internal/replicated/fsm.go:332-434 | restoring the snapshot of other tables brings back each of their site rows with tags and group, up to row ids; a row that was there keeps only its organization and creation time |
| `FleetRows.RestoreMeans` | internal/replicated/fsm.go:332-434 | a restore that succeeds leaves exactly the listed groups and sites, whatever was there before |
| `FleetReconcile.SnapshotLossless` | internal/replicated/fsm.go:273-320 | two coherent configurations with the same snapshot are equal: the archived flag and the listed columns lose nothing |
| `FleetReconcile.PutGroupsExact` | internal/replicated/fsm.go:354-360 | writing the snapshot's groups one by one succeeds exactly when no group clashes by name with a row not yet rewritten, and what it leaves |
| `FleetReconcile.PutSitesExact` | internal/replicated/fsm.go:361-367 | writing the snapshot's sites succeeds and what each row is afterwards |
| `FleetReconcile.PutTagsExact` | internal/replicated/fsm.go:410-414 | the tags afterwards are exactly the listed ones |
| `FleetReconcile.RestoreFleetExact` | internal/replicated/fsm.go:332-434 | restore succeeds if and only if no group name clashes, and then the result is the snapshot with the unchangeable columns of surviving rows |
| `FleetReconcile.ReconciledExact` | internal/replicated/fsm.go:332-434 | where the unchangeable columns agree, that is the snapshot itself |
| `FleetFsm.ApplyRefines` | internal/replicated/fsm.go:106-153 | a node answers each entry (applied, conflict, id reuse, latched) and moves as the machine without row ids does |
| `FleetFsm.ReplicasDeterministic` | internal/replicated/fsm.go:106-153 | replicas that agree modulo row ids answer every log alike, entry by entry, and agree afterwards |
| `FleetFsm.AppliedForever` | internal/replicated/fsm.go:121-127 | once an operation is applied, no later entry with its id changes a table |
| `FleetFsm.LatchedForever` | internal/replicated/fsm.go:114-116 | a latched node ignores every entry |
| `FleetFsm.ReachableSound` | internal/replicated/fsm.go:106-153 | every state a well-formed log reaches is coherent, conforms to the identities, and its applied map in memory is the stored one |
| `FleetFsm.ReloadExact` | internal/replicated/fsm.go:66-93 | reloading keeps all applied operations if and only if none has the empty id |
| `FleetFsm.LatchedSnapshotDiverges` | internal/replicated/fsm.go:273-320 | the snapshot of a latched node restores to one that goes on applying |
| `FleetHistory.ConflictReplayed` | internal/replicated/fsm.go:143-148 | a conflict at a position is again a conflict when replayed on any later state of the log |
| `FleetHistory.ReplayIsNoOp` | internal/replicated/fsm.go:121-152 | replaying an entry the durable state already reflects changes nothing |
| `FleetHistory.PositionsCompatible` | internal/server/server.go:1366-1368 | configurations of one well-formed log never clash by name and share their unchangeable columns |
| `FleetHistory.InstallRestores` | internal/replicated/fsm.go:332-434 | a snapshot of any position installs on a replica at any other, ahead or behind, and gives it everything of the log at that position but a latched failure |
| `FleetHistory.InstallAgreesExactly` | internal/replicated/fsm.go:427-433 | so the installed replica agrees with the log at that position exactly when the log is not latched there |
| `FleetHistory.HistoryTracks` | internal/replicated/fsm.go:66-434 | after any history of deliveries, crashes with replay and installs, a replica holds the log's state at its high-water mark, and agrees completely when caught up |
| `FleetHistory.RestartReplay` | internal/replicated/fsm.go:66-93 | crash after any prefix, reload, replay from the first entry: the result of the uninterrupted run |
| `FleetHistory.SnapshotPlusSuffix` | internal/replicated/fsm.go:332-434 | restoring the snapshot of any prefix over a replica at any position succeeds, and the remaining entries then give the result of the whole log |
| `FleetHistory.RenameReaches` | internal/replicated/fsm.go:163-189 | committed commands can rename a group |
| `FleetHistory.RenameBreaksRestore` | internal/replicated/fsm.go:354-360 | and then restore on a replica with the old name is refused as a conflict, changing nothing |
| `FleetService.DropSites` | internal/replicated/fsm.go:368-388 | deleting stale sites one row at a time leaves exactly the kept ones |
| `FleetService.DropGroups` | internal/replicated/fsm.go:389-409 | deleting stale groups one row at a time leaves the kept ones and clears references to the others |
| `FleetService.ListGroups` | internal/replicated/fsm.go:280-292 | the rows read for a snapshot list the groups exactly, in whatever order they come |
| `FleetService.ListSites` | internal/replicated/fsm.go:293-317 | likewise for sites with their tags |
| `FleetService.WriteGroups` | internal/replicated/fsm.go:354-360 | the upsert loop is the specified sequence of writes, stopping at the first failure |
| `FleetService.WriteSites` | internal/replicated/fsm.go:361-367 | likewise for sites |
| `FleetService.WriteTags` | internal/replicated/fsm.go:410-414 | likewise for tags |
| `FleetService.Reconcile` | internal/replicated/fsm.go:332-434 | the stages of a restore in order, each stopping it, are the specified restore of the tables |
| `FleetService.Fsm.constructor` | internal/replicated/fsm.go:66-93 | the state machine starts from what is stored: tables, position, and every recorded operation with a non-empty id, without a latched failure |
| `FleetService.Fsm.Apply` | internal/replicated/fsm.go:106-153 | the in-place method is the specified step. On the rows: a latched failure, a known operation id or a refused command changes no row and no record; a new operation that is not refused is answered applied, recorded, and does to the rows what its kind says; after a deletion no site row has the cluster id, and all other rows are as before |
| `FleetService.Fsm.TakeSnapshot` | internal/replicated/fsm.go:273-320 | the result is a snapshot of the node and the node is unchanged: its applied operations, its position, and each group and site row with columns and tags |
| `FleetService.Fsm.RestoreFrom` | internal/replicated/fsm.go:332-434 | the in-place method is the specified restore: either everything is replaced, only the listed groups and sites are there and the failure is cleared, or nothing has changed |
| `Crawler.SeedQueue` | internal/crawler/crawler.go:155-183 | the queue starts with the root and every sitemap page once, and the sitemap count is exact |
| `Crawler.FollowLinks` | internal/crawler/crawler.go:240-273 | a page's links: every followable unknown one queued once one level deeper, internal assets inventoried with their class, links counted by kind |
| `Crawler.InventoryResources` | internal/crawler/crawler.go:276-289 | the inventory gains exactly the internal resources, an unknown class as other |
| `Crawler.VisitUrl` | internal/crawler/crawler.go:192-290 | a visit is blocked by robots, a resource or a page; what it queues, inventories and counts in each case |
| `Crawler.VisitHead` | internal/crawler/crawler.go:186-291 | one turn of the loop: a stale or too deep head is dropped, any other one is visited with its whole effect |
| `Crawler.VisitKeeps` | internal/crawler/crawler.go:186-291 | queue order by level, exact depths and closure under visited links survive a visit |
| `Crawler.TurnVisits` | internal/crawler/crawler.go:189-222 | the head is never stale or too deep, and the guard on the discovered counter never fails |
| `Crawler.TurnKeeps` | internal/crawler/crawler.go:186-291 | the whole loop invariant survives a turn, which records a page or shortens the queue |
| `Crawler.KnownStep` | internal/crawler/crawler.go:244-273 | the known URLs stay exactly the seeds and the link targets of recorded pages above the depth limit |
| `Crawler.ClassStep` | internal/crawler/crawler.go:205-289 | an asset keeps the class under which the first visit inventoried it |
| `Crawler.WorkRemains` | internal/crawler/crawler.go:356-358 | work left in the queue is a URL within the depth limit that was not visited |
| `Crawler.CountFailed` | internal/crawler/crawler.go:359-363 | the failed pages are counted |
| `Crawler.CrawledAtMostDiscovered` | internal/crawler/crawler.go:352-353 | never more pages crawled than discovered |
| `Crawler.Crawl` | internal/crawler/crawler.go:155-383 | for every web the crawl ends; recorded depths are shortest distances from the seeds over followed links; no URL is recorded or fetched twice; nothing nearer than a recorded page is missed; the limit flag is set if and only if a URL within the depth limit was not visited; discovered is the number of known URLs minus the fetched resources; the inventory, the class counters, the failed pages and the link counts are those of the pages. On the rules and responses themselves: no fetched path is under a rule, and a visited URL is not fetched only if its path is; the pages are the fetched URLs that failed, answered 400 or more, or are HTML, with status and outcome as fetched; the known URLs are exactly the root, the sitemap pages, and the internal non-assets among the first thousand links of successful pages above depth eight; at most 500 pages |
| `Crawler.Explore` | internal/crawler/crawler.go:155-383 | the page loop from the seeds gives a faithful report and stops at the page limit or with an empty queue |
| `Crawler.RulesObeyed` | internal/crawler/crawler.go:510-520 | a faithful report has no fetched path under a rule, and no visited path that is not fetched outside every rule |
| `Crawler.PagesFetched` | internal/crawler/crawler.go:198-230 | the pages are the fetched URLs except successful responses that are not HTML |
| `Crawler.KnownMeans` | internal/crawler/crawler.go:155-183 | with the links followed, the known URLs in terms of root, sitemaps, links, kinds and assets alone |
| `Crawler.RootDepths` | internal/crawler/crawler.go:155-183 | a page has depth zero exactly when it is the root or a page of a sitemap |
| `Crawler.DepthsMean` | internal/crawler/crawler.go:240-273 | a page that another links to is at most one deeper, and a deeper page is linked from a recorded page one level up |
| `Crawler.CountsMean` | internal/crawler/crawler.go:352-363 | discovered is the number of known URLs minus the fetched responses that are not HTML, failed the number of pages that are not ok |
| `Crawler.InventoryMeans` | internal/crawler/crawler.go:205-289 | the inventory is what was fetched and is not HTML, and the internal resources and assets that successful pages name |
| `Crawler.InventoriesMeans` | internal/crawler/crawler.go:198-290 | what a visit may add to the inventory: the URL itself when it is not HTML, else the internal resources and the assets among the first thousand links |
| `Crawler.AssetClassed` | internal/crawler/crawler.go:205-289 | the class of an asset is that of the first fetch that names it: by content type if it fetched the asset, by name, or other, if a page named it |
| `Crawler.LinksCounted` | internal/crawler/crawler.go:240-273 | links of a kind are counted place by place, the first thousand of each successful page |
| `Crawler.ClassesMean` | internal/crawler/crawler.go:364-383 | the first counter is the number of css assets, the second of javascript ones, and so on; all eight sum to the inventory |
| `Crawler.CountClasses` | internal/crawler/crawler.go:364-383 | each class counter is the number of assets of that class, and they sum to the inventory |
| `ManagedUnit.SystemdQuote` | internal/service/service.go:175-191 | the escaping loop gives the quoted form |
| `ManagedUnit.UnescapedEscaped` | internal/service/service.go:175-191 | every value can be read back from its escaped form |
| `ManagedUnit.HasControl` | internal/service/service.go:195-202 | finds a control character if and only if there is one |
| `ManagedUnit.Scan` | internal/service/service.go:253-282 | the one-pass scan with counters finds each record's value, or a repeated record |
| `ManagedUnit.ReadManagedUnit` | internal/service/service.go:227-303 | the reader accepts exactly what the declarative reading accepts, with the same error |
| `ManagedUnit.ReadSound` | internal/service/service.go:283-302 | whatever is accepted is trimmed, non-empty, without control characters and without a percent sign in the environment file |
| `ManagedUnit.TrimExactly` | internal/service/service.go:262-280 | a trimmed text is the part of the text between the white space at its ends |
| `ManagedUnit.SpaceExactly` | internal/service/service.go:262-280 | white space is the 25 code points with the White_Space property (Unicode Character Database, PropList) |
| `UnitReading.ReadExactly` | internal/service/service.go:227-303 | a unit is read as given values exactly when it has the marker, one header with the checksum of everything below, and each record at most once with that value, on the lines themselves |
| `UnitReading.RefusedExactly` | internal/service/service.go:227-250 | not managed exactly without the marker, modified exactly when the header is in order and only its checksum is wrong |
| `UnitReading.LinesExactly` | internal/service/service.go:228 | the lines are the pieces without newlines that joined by newlines give the text |
| `UnitReading.EscapedGuarded` | internal/service/service.go:175-191 | quotes, dollar signs and backquotes in a quoted value all have a backslash before them, and plain text is left as it is |
| `UnitReading.BootstrapDirectives` | internal/service/service.go:524-558 | the directives of a bootstrap unit, line by line |
| `UnitReading.ExplicitDirectives` | internal/service/service.go:568-601 | the directives of an explicit unit, line by line |
| `ManagedUnit.BootstrapRoundTrip` | internal/service/service.go:607-616 | a built bootstrap unit is read back exactly if and only if its values can be recorded |
| `ManagedUnit.ExplicitRoundTrip` | internal/service/service.go:621-631 | likewise for an explicit unit, whose joined address is always non-empty and trimmed |
| `UnitAcceptance.BootstrapAccepted` | internal/service/service.go:607-616 | a bootstrap unit with the values install lets through is accepted exactly when data directory and address are not blank, and of the environment file the first line, trimmed, has no control character and no percent sign and no further line is a record; what is then read back |
| `UnitAcceptance.ExplicitAccepted` | internal/service/service.go:621-631 | likewise for an explicit unit, whose address is never blank |
| `UnitAcceptance.SealedAccepted` | internal/service/service.go:227-303 | the same for any directives around the environment file: the reader's answer for every environment file, newlines included |
| `UnitAcceptance.FirstLineRefused` | internal/service/service.go:294-301 | in particular a percent sign or a control character on the first line is refused, in the bootstrap form |
| `UnitAcceptance.FirstLineRefusedExplicit` | internal/service/service.go:294-301 | likewise for the explicit form |
| `UnitAcceptance.TemplateExactly` | internal/service/service.go:193-194 | the lines of a built unit are exactly those of its template if and only if the environment file has no newline |
| `UnitAcceptance.TemplateExactlyExplicit` | internal/service/service.go:193-194 | likewise for the explicit form |
| `UnitAcceptance.FurtherLinesInjected` | internal/service/service.go:524-557 | every further line of the environment file is a line of its own in the bootstrap unit |
| `UnitAcceptance.FurtherLinesInjectedExplicit` | internal/service/service.go:568-602 | likewise for the explicit form |
| `UnitAcceptance.EscapedLines` | internal/service/service.go:175-191 | quoting works line by line: it neither adds nor removes a newline |
| `ManagedUnit.ChangedBodyRefused` | internal/service/service.go:245-249 | a unit whose content below the header has another checksum is never accepted |
| `Machines.Host.Systemctl` | internal/service/service.go:114-159 | a successful verb has its effect; a failed one may spoil only what it acts on, and is counted |
| `Machines.Host.CopyFile` | internal/service/service.go:492-515 | the target is the source, or unchanged |
| `Installer.EnableStepsEffect` | internal/service/service.go:969-978 | the enablement calls leave exactly the wanted word from any prior enablement |
| `Installer.ForwardEffect` | internal/service/service.go:904-919 | the activation calls load the new unit and keep enablement and activity, or establish them on a fresh machine |
| `Installer.ForwardOrder` | internal/service/service.go:904-919 | the unit is loaded first, and every start or restart comes right after the failure is cleared |
| `Installer.Compensate` | internal/service/service.go:833-890 | if no rollback failure is reported, executable, unit, loaded unit and enablement are the saved ones, a service that was running runs the saved executable under the saved unit, and a stopped one is stopped; where the executable and the backup copy are after any failure; if no step fails, backup copy and what was not there before (executable, unit) are gone |
| `Installer.Change` | internal/service/service.go:898-925 | the new executable and unit with the prior enablement and activity; whether the executable was replaced; a service that was stopped stays so whatever fails |
| `Installer.Preflight` | internal/service/service.go:712-811 | the inspection changes nothing and refuses, finds nothing to do, or plans with the exact prior state; it finds nothing to do only if unit, executable and data directory are the requested ones |
| `Installer.InspectMeans` | internal/service/service.go:737-811 | the inspection refuses exactly for an invalid request, an unreadable executable, an unsafe directory, a unit that is not accepted or a state word that cannot be restored; else there is nothing to do exactly when unit and executable are the requested ones and the directory is there |
| `Installer.Transact` | internal/service/service.go:826-929 | backup, change and compensation together: after any failure the executable and its backup copy are exactly determined by what was replaced, put back and removed; after a single failure everything is put back, and backup copy, and executable and unit where there were none, are gone |
| `Installer.ExecutableLostExactly` | internal/service/service.go:845-853 | the old executable is lost, in place and as backup copy, exactly when the new one stayed in place and the backup copy is gone |
| `Installer.Install` | internal/service/service.go:712-929 | over an existing unit and readable executable, any failure without a reported incomplete rollback leaves executable, unit, enablement and activity as before; on a fresh machine a single failure leaves neither unit nor executable; after any failure the executable is the old or the new one, as the outcome says; success keeps enablement and activity; errors before the account leave the machine unchanged; the no-op happens exactly when nothing differs; if no step fails the install succeeds unless the inspection refuses, and an incomplete rollback takes two failures. On the request and the machine: refused exactly, if no step fails, for the reasons the inspection refuses; already correct only with the requested unit and executable in place; after success a stopped service is stopped and any other runs the new executable under the new unit |
| `Installer.ReinstallIsNoOp` | internal/service/service.go:805-811 | once installed in the bootstrap form with values that can be recorded, the same request finds nothing to do |
| `Installer.ExplicitReinstallIsNoOp` | internal/service/service.go:805-811 | likewise in the explicit form |
| `Installer.NextInstallExactly` | internal/service/service.go:750-755 | after an install in the bootstrap form, the next install refuses because of the unit exactly when a value is blank or the environment file is not accepted |
| `Installer.NextExplicitExactly` | internal/service/service.go:750-755 | likewise after an install in the explicit form |
| `Installer.EnvFileLocksOut` | internal/service/service.go:750-755 | an environment file that is not accepted makes every later install refuse, whatever it asks for, in the bootstrap form |
| `Installer.ExplicitEnvFileLocksOut` | internal/service/service.go:750-755 | likewise in the explicit form |
| `Updater.Activate` | internal/service/service.go:1292-1303 | a successful restart with health check runs the executable in place under the loaded unit |
| `Updater.Recover` | internal/service/service.go:1360-1392 | recovery restores the saved executable and state; both artifacts are gone unless their removal failed, each failed removal being counted |
| `Updater.Save` | internal/service/service.go:1269-1278 | executable and state are recorded before either changes; if the state cannot be recorded the saved copy is gone unless its removal failed |
| `Updater.Replace` | internal/service/service.go:1279-1309 | putting the new executable in place, restarting if the service was running, and recovering, with the exact machine each outcome leaves, removals included |
| `Updater.Swap` | internal/service/service.go:1269-1309 | every outcome of an update with the exact machine it leaves; it succeeds if no step fails, and a recovered one has consumed both artifacts if no further step fails |
| `Updater.Update` | internal/service/service.go:1245-1309 | likewise with the checks: refused when the unit is missing or not accepted, the state is none of the four words or the checksum is wrong, and then nothing has changed; without a failing step refused for nothing else; after success the artifact is in place and runs if the service ran, and executable and state from before are saved; an update that is not recovered takes two failures, a recovered one with an artifact left one more for each |
| `Updater.ChecksumExactly` | internal/service/service.go:1232-1243 | a wanted checksum is accepted exactly when it is the sum, digits in either case, between white space |
| `Updater.Rename` | internal/service/service.go:1428-1436 | the two renames happen both, or the executable is back or in the failed file; after a single failure it is back |
| `Updater.Undo` | internal/service/service.go:1417-1452 | every outcome of a rollback with the exact machine it leaves; it succeeds if no step fails, and has then removed the marker |
| `Updater.Rollback` | internal/service/service.go:1394-1452 | likewise with the checks: refused when the unit is missing or not accepted, or the saved executable or a known marker is missing, and then nothing has changed; after success the saved executable is in place and used up, and runs exactly when the marker says so; without a failing step the marker is gone |
| `Updater.SavedExactly` | internal/service/service.go:1269-1278 | in every run of updates, rollbacks and other commands, a saved executable is the one the latest saving update found, with the state it recorded, or the one saved at the start |
| `Updater.RollbackExact` | internal/service/service.go:1394-1452 | in every run, a successful rollback puts back exactly that executable and, if it was running, runs it |
| `Updater.RollbackStateExactly` | internal/service/service.go:1437-1448 | after a successful rollback the running state is the recorded one if and only if the recorded service was running or the state has not changed since |
| `Updater.RollbackLeavesRunning` | internal/service/service.go:1437-1442 | a service recorded as stopped and started since goes on running the executable that was rolled back |
| `Updater.RollbackUndoesUpdate` | internal/service/service.go:1245-1452 | right after an update the rollback restores executable and running state from before it |
| `Updater.RollbackIsOneLevel` | internal/service/service.go:1245-1452 | after any sequence of successful updates the rollback restores what was in force before the last |
| `Updater.SecondRollbackRefused` | internal/service/service.go:1404-1406 | a rollback right after a successful one is refused and changes nothing |
| `Updater.RecoveryRestores` | internal/service/service.go:1360-1392 | in every run a failed update that recovered leaves the old executable running under the loaded unit, and of each artifact nothing unless its removal failed |
| `Updater.RollbackAfterRecovery` | internal/service/service.go:1386-1412 | a rollback right after such an update is refused and changes nothing once the saved executable is gone; it can succeed only if neither artifact went away, and then puts the same executable back |
| `Claims.ClaimStore.ClaimDue` | internal/store/store.go:389-401 | on the row: a new unit is granted with generation one, a known one exactly when it is due and unowned or its lease has passed, with the next generation, owner and lease written and the due time kept; a refusal changes nothing |
| `Claims.ClaimStore.RenewClaim` | internal/store/store.go:403-416 | on the row: exactly for the current owner and generation the lease is written, otherwise nothing changes |
| `Claims.ClaimStore.CompleteClaim` | internal/store/store.go:418-425 | on the row: exactly for the current owner and generation the due time is written and owner and lease are cleared |
| `Claims.GrantedOnce` | internal/store/store.go:389-401 | in every interleaving later grants of a unit carry larger generations |
| `Claims.Fencing` | internal/scheduler/scheduler.go:109-144 | a renewal or completion takes effect only for the worker whose grant is the latest and not completed |
| `Claims.CompletedOnce` | internal/store/store.go:418-425 | each generation is completed at most once |
| `Claims.StaleForever` | internal/store/store.go:403-425 | a stale owner and generation stay stale |
| `Claims.RefusedForever` | internal/scheduler/scheduler.go:188-219 | once a renewal is refused, no later renewal or completion of that worker changes the table |
| `Claims.RowFromHistory` | internal/store/store.go:389-425 | the stored lease and due time are the last ones written |
| `Claims.TakeoverAfterLease` | internal/store/store.go:389-401 | a takeover happens only at or after the last lease written, and no claim before the last due time set |
| `Claims.DueGranted` | internal/store/store.go:389-401 | in every run a claim of a new unit, or of a due one that is unowned or whose lease has passed, is granted |
| `Rotation.WorksExactly` | internal/cluster/transport.go:65-73 | a pair works exactly when the peer's inbound or live pending credential is one the caller holds |
| `Rotation.PreviousDroppedSafely` | internal/cluster/transport.go:136-141 | the previous secret is dropped only when the peer holds the current one |
| `Rotation.AcceptedDrops` | internal/cluster/transport.go:125-141 | an accepted call leaves no previous secret, unless that was the secret the peer accepted |
| `Rotation.AnchorLost` | internal/cluster/cluster.go:320-378 | the peer's inbound credential stops being the caller's current or previous secret exactly by a rotation the fallback carried, which is then usable as pending |
| `Rotation.PendingHolds` | internal/cluster/transport.go:106-146 | such a pair stays usable until the pending credential expires |
| `Rotation.StrandedForever` | internal/cluster/transport.go:86-146 | a pair that does not work never works again by itself |
| `Rotation.RotationNeverStrands` | internal/cluster/cluster.go:320-378 | in every run from a synchronized pair without a rotation carried by the fallback, the peer's inbound credential is the caller's current or previous secret |
| `Rotation.StrandedExactly` | internal/cluster/cluster.go:320-378 | a run ends with a pair that no longer works if and only if a rotation was carried by the fallback and its credential expired unused |
| `Rotation.TwoIdleRotationsStrand` | internal/cluster/cluster.go:320-378 | every synchronized pair of active members is stranded by two rotations over a faultless network, each left unused until its credential expires |
| `Rotation.PeerMember.Authenticate` | internal/cluster/transport.go:37-79 | accepts the current credential or a live pending one, and promotes the latter |
| `Rotation.PeerMember.Receive` | internal/cluster/cluster.go:368-378 | the peer's row after one request, and the reply: over a faultless network accepted exactly when the peer is active and knows the secret, which is then the inbound one |
| `Rotation.CallerMember.Request` | internal/cluster/transport.go:86-146 | the in-place call is the specified one; accepted with the current secret no previous one is left, accepted with the previous one it stays; over a faultless network it is accepted exactly when the peer knows one of the two, the current one first |
| `Rotation.CallerMember.RotateSecret` | internal/cluster/cluster.go:320-367 | the in-place rotation is the specified one: after success the drawn secret is current and pending at the peer and the old one is previous, after a failure both are as before |
| `Pairing.Service.SubmitJoin` | internal/cluster/pairing.go:35-88 | exactly a valid submission for a pending invitation is taken: the invitation is used and the request gets the drawn number and secret; otherwise nothing changes |
| `Pairing.Service.DecideJoin` | internal/cluster/pairing.go:123-158 | a pending request becomes approved, with a member row that holds its credential, or rejected; otherwise nothing changes |
| `Pairing.Service.PollJoin` | internal/cluster/pairing.go:162-206 | a poll is granted exactly when it presents the secret of an approved request that is not used up, which it then is, with the drawn credential in the member row; a wrong secret is answered as unavailable, and nothing but a grant changes a row |
| `Pairing.RunSound` | internal/cluster/pairing.go:35-206 | in every run an invitation yields at most one request, a request is consumed exactly when used, so an approved one is not yet consumed |
| `Pairing.Absorbing` | internal/cluster/pairing.go:35-206 | in every run used and rejected are final |
| `Pairing.OneCredential` | internal/cluster/pairing.go:162-206 | in every run a request yields at most one credential |
| `Pairing.SecretsDrawn` | internal/cluster/pairing.go:63-88 | in every run each request was made by a submission and has the secret drawn there |
| `Pairing.GrantPresents` | internal/cluster/pairing.go:175-205 | in every run whoever is granted a credential presents the secret drawn when the request was submitted |
| `Pairing.MembersBacked` | internal/cluster/pairing.go:123-158 | a member row always holds the credential of the node's request approved last |
| `Pairing.CompletedMatches` | internal/cluster/pairing.go:294-344 | when a pairing completes, each side's outbound secret is the other's inbound one if and only if the member row is still there and no other request of the node was approved since |
| `Pairing.OnlyPairingMatches` | internal/cluster/pairing.go:208-223 | in particular for the only approved request of a node |
| `Pairing.GrantOutcome` | internal/cluster/pairing.go:294-344 | a grant completes its join if and only if the reply arrives; otherwise the join waits |
| `Pairing.WaitingForever` | internal/cluster/pairing.go:186-188 | in every run a join whose request is used waits for ever and never completes |
| `Incidents.Monitor.UpdateHealth` | internal/monitor/monitor.go:208-254 | the in-place update of health row, incidents, alerts and deliveries is the specified one, also when the second transaction does not take place; on the row: healthy with no failures after a success, degraded or warning by the kind of a first failure, down after a further one, with the times of success, failure and change |
| `Incidents.Monitor.Change` | internal/incidents/incidents.go:31-92 | recovery closes the site's open incident with an alert and the deliveries, a further change updates its state and nothing else, and a first failure opens one with an alert and the deliveries; the texts are the source's |
| `Incidents.OpenIncidentExactly` | internal/incidents/incidents.go:41-50 | the open incident is the site's latest row that is not closed |
| `Incidents.Monitor.Enqueue` | internal/incidents/incidents.go:105-114 | one delivery for each enabled webhook of the organization, with the payload's site, incident, state, summary and time |
| `Incidents.StartsExact` | internal/monitor/monitor.go:208-254 | the counted runs of failures are the maximal ones |
| `Incidents.StopsExact` | internal/monitor/monitor.go:208-254 | the counted recoveries are the successes right after a failure |
| `Incidents.TrailExactly` | internal/monitor/monitor.go:217-224 | the failure count is the number of last checks that failed in a row |
| `Incidents.StateExactly` | internal/monitor/monitor.go:219-237 | healthy after a success, down after two failures, otherwise degraded or warning by the kind of the failure |
| `Incidents.LastAtExactly` | internal/monitor/monitor.go:238-246 | the recorded success and failure are the latest ones |
| `Incidents.ChangedAtExactly` | internal/monitor/monitor.go:238-246 | the recorded change is the check since which the state has been what it is |
| `Incidents.HealthStep` | internal/monitor/monitor.go:208-254 | state, failure count and times are those of the site's checks |
| `Incidents.IncidentsStep` | internal/incidents/incidents.go:31-92 | one incident for each maximal run of failures, with its opening and closing time and state |
| `Incidents.AlertsStep` | internal/incidents/incidents.go:96-98 | a new alert exactly when a run of failures starts or stops |
| `Incidents.OthersUntouched` | internal/incidents/incidents.go:41-50 | a check of one site changes nothing about another |
| `Incidents.TablesFollowHistory` | internal/monitor/monitor.go:208-254 | after every interleaved history, a site's health, incidents and alternating open and recovery alerts are a function of its own checks |
| `Incidents.OneOpenIncident` | internal/incidents/incidents.go:31-92 | a site has an open incident exactly while its latest checks fail, only one, and it carries the site's state |
| `Incidents.OutboxIsFanOut` | internal/incidents/incidents.go:100-114 | the deliveries of a run are, alert by alert, what the organization's webhooks are owed, payloads included |
| `Incidents.DeliveriesExact` | internal/incidents/incidents.go:105-114 | a notice is delivered as many times as there are enabled webhooks of the site's own organization with that id, and in no other form |
| `Incidents.DeliveredOnce` | internal/incidents/incidents.go:105-114 | with distinct webhooks: exactly once to each that is enabled and of the organization, never to another |
| `Interruptions.CutsFollowed` | internal/monitor/monitor.go:238-251 | with the transition cut off after any health rows, health still follows the checks, and there is at most one open incident: the one that the last state change not cut off left |
| `Interruptions.AgreesExactly` | internal/monitor/monitor.go:238-251 | the open incident agrees with the health exactly when the last state change not cut off led to the present state |
| `Interruptions.CutHidesOutage` | internal/monitor/monitor.go:238-251 | a cut at the first two checks of an outage leaves it without an incident for as long as it lasts |
| `Interruptions.CutLeavesOpen` | internal/monitor/monitor.go:238-251 | a cut at the recovery leaves the incident open for as long as the site is healthy |
| `Interruptions.LastChangeDecides` | internal/monitor/monitor.go:250-251 | in particular when the latest state change was not cut off |
| `Interruptions.DisagreementStays` | internal/monitor/monitor.go:250-251 | a cut is never made up for while the state stays as it is |
| `Interruptions.CutsAlternate` | internal/incidents/incidents.go:53-92 | after every history with cuts a site's alerts alternate open and recovery in pairs about one incident, an odd number of them exactly while an incident is open |
| `Interruptions.CutsPosted` | internal/incidents/incidents.go:100-114 | and the deliveries are what the alerts owe |
| `RateLimiter.Limiter.Sweep` | internal/server/ratelimit.go:37-41 | drops exactly the buckets whose window has passed |
| `RateLimiter.Limiter.Call` | internal/server/ratelimit.go:31-57 | the in-place call is the specified one; on the buckets: one in its window admits below the limit and counts, one whose window has passed starts again, a new key first drops the passed ones and is refused when the rest fill the memory |
| `RateLimiter.MemoryBounded` | internal/server/ratelimit.go:42-46 | in every run the map never exceeds the configured number of keys |
| `RateLimiter.RunCounterExact` | internal/server/ratelimit.go:48-56 | in every run a bucket's counter is the number of the key's calls that its lifetime admitted, at most the limit, despite eviction and re-creation |
| `RateLimiter.FirstCallsOfRun` | internal/server/ratelimit.go:52-56 | in every run, each bucket lifetime admits exactly its first calls up to the limit |
| `RateLimiter.AdmissionsAreFirst` | internal/server/ratelimit.go:52-56 | a lifetime has admitted the smaller of its calls so far and the limit |
| `RateLimiter.WindowBound` | internal/server/ratelimit.go:31-57 | with a clock that never goes back, any closed interval of one window admits a key at most twice the limit minus one times |
| `RateLimiter.BoundIsTight` | internal/server/ratelimit.go:31-57 | for every limit, window and memory of at least one, this many are admitted in some window |
| `Geo.LastAddr` | internal/geo/geo.go:187-205 | the byte loop sets the host bits from the last byte on |
| `Geo.OrMask` | internal/geo/geo.go:196 | combining with a mask of low bits sets exactly those |
| `Geo.LastBytesValue` | internal/geo/geo.go:187-205 | the last address is the address with all host bits set: address minus its host part plus two to the host bits minus one (section 3.1 of RFC 4632) |
| `Geo.NetworkContains` | internal/geo/geo.go:121-129 | a network row contains exactly the addresses with its network bits |
| `Geo.SortByStart` | internal/geo/geo.go:152-153 | the index is a permutation of the entries in ascending order of start |
| `Geo.Parse` | internal/geo/geo.go:100-155 | the indexes hold exactly the usable rows of each family; a bad network or no usable row is an error |
| `Geo.EntriesExactly` | internal/geo/geo.go:113-151 | each usable row gives one entry: a span as it stands, a network with its last address, and only with a country of two letters |
| `Geo.FamilyExactly` | internal/geo/geo.go:143-147 | an index has the entries of its width, as often as they are there |
| `Geo.Search` | internal/geo/geo.go:173-181 | the binary search finds the last entry that starts at or before the address |
| `Geo.AtMostExactly` | internal/geo/geo.go:173-181 | addresses of one width are ordered by the first byte in which they differ |
| `Geo.Lookup` | internal/geo/geo.go:162-182 | and the family's index is the one searched |
| `Geo.LookupIsScan` | internal/geo/geo.go:162-182 | for disjoint ranges, however equal starts are ordered, the lookup answers as a scan of all entries does |
| `Geo.HiddenRanges` | internal/geo/geo.go:162-182 | two instances: an inverted and a nested range |
| `GeoCoverage.LatestSound` | internal/geo/geo.go:173-181 | a country that is found is always that of a range that contains the address |
| `GeoCoverage.MissedExactly` | internal/geo/geo.go:173-181 | for every index and address, a contained address is missed if and only if the last entry starting at or before it ends before it |
| `GeoCoverage.FindsExactly` | internal/geo/geo.go:162-182 | the lookup finds every contained address if and only if, row by row, no entry leaves room beyond its end, before the next start, that an earlier range covers |
| `GeoCoverage.AnswersExactly` | internal/geo/geo.go:162-182 | it gives the country of every range containing the address if and only if moreover no entry answers for an earlier range with another country |
| `GeoCoverage.LookupAsScanExactly` | internal/geo/geo.go:162-182 | the same condition decides whether the lookup answers as a scan of the entries in every order does |
| `GeoCoverage.InvertedHides` | internal/geo/geo.go:135-147 | an entry that ends before it starts hides every earlier range that reaches its start, unless another starts there |
| `GeoCoverage.NestedHides` | internal/geo/geo.go:162-182 | an entry inside an earlier range hides that range's rest, unless a later one starts at once |
| `Placeholders.Rebind` | internal/database/database.go:16-35 | the loop gives the rewritten query |
| `Placeholders.ReadsBack` | internal/database/database.go:16-35 | a query that keeps its digits apart reads back as meant, any other one reads back shorter |
| `Placeholders.RebindExact` | internal/database/database.go:16-35 | the output has placeholders 1, 2, ... exactly where the unquoted question marks were and all else unchanged, if and only if no digit directly follows an unquoted question mark or dollar sign |
| `Placeholders.MeantExactly` | internal/database/database.go:16-35 | what is meant, place by place: the k-th question mark with an even number of quotes before it is placeholder k |
| `Placeholders.SeparateExactly` | internal/database/database.go:16-35 | digits are kept apart when none directly follows a question mark or dollar sign with an even number of quotes before it |
| `Placeholders.DigitSwallowed` | internal/database/database.go:27-31 | a query for which it fails |
| `Placeholders.RebindPreservesBinding` | internal/database/database.go:36-41 | for all arguments, numbered and positional binding give the same statement if and only if that condition holds |
| `Placeholders.NumberedAt` | internal/database/database.go:36-41 | a numbered placeholder takes the argument of its number, if there is one |

## Left out

- Raft, the gantry-core library, cryptography and its random numbers: assumed as said above.
- Database errors other than constraint violations, and the order in which a snapshot lists its rows: restore is proved for every order, so for the one the queries use.
- The in-memory applied index as an invariant: replayed duplicates set it back (internal/replicated/fsm.go:125).
- internal/propagation and internal/replicated/controller.go: they rest on the core library.
- Crawl origins, broken-link bookkeeping, external link checks, HTML extraction, robots and sitemap parsing: inputs of the model or easy bookkeeping. A malformed URL in the queue does not occur because only parsed URLs are queued.
- `Machines.Host.CopyFile`: the temporary file that a failed copy leaves beside its target (internal/service/service.go:498-514) is not part of the machine.
- Spontaneous crashes of the service other than while its health is polled, the start-limit counter behind reset-failed, and the descriptor-based data directory checks, which are one inspection result here.
- Start, stop, enable, disable, uninstall and status commands: a reading of the branches settles them. In runs of updates they count as other commands.
- The last step of a pairing in which the collected result is stored but the join's own state is not.
- Service.Pair (internal/cluster/cluster.go:151-192), which checks the invitation outside its transaction; only the join path is modelled. Rotation and pairing are separate models, so a rotation during a pairing is not covered.
- Concurrent checks of one site, and deletion of sites with their incidents.
- Address zones and the text of addresses and rows: rows arrive parsed.
- The limiter in internal/analytics/analytics.go:212-238, which is the same algorithm.
- HTTP handlers, the command line, the browser code, OIDC, backups, role checks, configuration loading, analytics and performance summaries: plumbing or easy members.
