# Research engine: a verified model

ResearchHub takes an order's address and collects the documents a land survey starts from: the parcel
record, the deed, the plat, the tax record, the flood zone and the control points. A job asks for some
document types. A Celery worker fetches them one by one while API callers create, cancel, retry and review
jobs and a reaper sweeps the table. Each document comes from one run of a small pipeline that resolves the
parcel, runs one adapter per document, and copies artifacts into a blob store with evidence rows.

The project models these parts and proves what they promise, or exactly when they keep the promise.

| files | part of the system |
|---|---|
| `lifecycle`, `protocol`, `single_run`, `redelivery`, `lifecycle_graph`, `fleet`, `fleet_edges`, `overlap`, `worker` | one job's rows under the worker, the API, the reaper, crashes and redelivery |
| `catalog`, `doc_types`, `create_jobs` | document types, retry chains, concurrent creation under the unique constraint |
| `text`, `addresses`, `situs`, `situs_names`, `joins`, `parcels`, `join_example` | address comparison, situs extraction, related-table joins, layer search and the trust gate |
| `pipeline`, `sources`, `blob_keys`, `uploads`, `fetcher`, `end_to_end` | step assembly, adapters, the write-once store and its evidence, the document fetcher |
| `deeds`, `captures` | choice of the vesting deed and the viewer's page capture |

How the protocol is modelled. The committed rows are a `Db`. A delivery holds a `Local`: the values its
session loaded (sessions do not expire on commit) and the documents it has changed since its last commit.
Every commit writes only the columns whose value differs from the loaded one. Between two worker steps any
number of foreign writes may happen. `Protocol` is the transition system, `Worker.JobStore.ResearchJob` is
the loop proved to follow it, and `Fleet` runs any number of deliveries, crashes and broker tasks at once.
What a fetch does for document i is a `Plan`, an arbitrary function; `Fetcher` and `EndToEnd` show what the
real fetcher puts there.

Where the code and its own documentation disagree, the model follows the code:

- `docs/job-lifecycle.md:53` says a terminal status is left only by sign-off. A redelivered task puts any job
  that is not cancelled back to `running` (`Redelivery.RedeliveryReopens`).
- `docs/job-lifecycle.md:31-35` says a blocked or broken source makes a job `partial`. With the registered
  adapters a source failure leaves a link and the document counts as fetched; only an unresolved property, a
  run that cannot write its own files or a failed upload fails a document (`EndToEnd.CompletedMeans`).
- `backend/app/engine/worker.py:67-72` says the reaper fails stale runs and is harmless. Its update has no age
  limit; it is invisible in the final rows (`Redelivery.SweepsAreInvisible`), but commits a status change outside
  the declared graph unless the run delivers nothing (`LifecycleGraph.SweepKeepsGraphIff`).
- A cancel that lands after the last re-read is overwritten (`SingleRun.CancelHonoured`), and one that lands
  between the first read and the pick-up of a queued job is too (`LifecycleGraph.CancelKeepsGraphIff`).
- `backend/app/engine/models.py:65` speaks of one active job per key; the constraint also counts deleted rows, so
  a deleted winner blocks its key (`CreateJobs.DeletedWinnerConflicts`).
- `backend/app/engine/orchestration/sources.py:9-11` says failures never escape a run. One that is raised again by
  the fallback of a source error does (`Pipeline.EscapesIff`); no registered adapter raises one.
- A File row's digest is that of the file just staged, also when an older blob was kept
  (`Uploads.DigestDescribesBlobIff`).
- The parcel gate is exact for a non-empty address without a join (`Parcels.TrustGate`); for an empty address and
  for joined layers it trusts more, exactly as `Parcels.EmptyAddressGate` and `Parcels.JoinedGate` say
  (`JoinExample.TrustedWithoutMatch` is an instance).

## Model

| member | source | states |
|---|---|---|
| `Lifecycle.CountersConserve` | backend/app/engine/service.py:85-118 | when all documents are final, total = fetched + failed + cancelled, uploaded is part of fetched, and the resolved status is a function of the stored counters for every held status but `cancelling` |
| `Lifecycle.RecalcCounts` | backend/app/engine/service.py:85-96 | each counter is the number of documents with its statuses: all, fetched or uploaded, uploaded, failed, skipped |
| `Lifecycle.ResolveMeaning` | backend/app/engine/service.py:98-118 | completed exactly if there are documents and none failed; partial exactly if one failed and one was delivered; failed exactly if nothing was delivered and something failed or there was nothing |
| `Protocol.StepLowers` | backend/app/engine/worker.py:142-234 | every worker step lowers the measure, no foreign write touches it, and it is zero exactly at the end |
| `Protocol.RunTerminates` | backend/app/engine/worker.py:142-234 | any interleaving with at least 3n + 3 worker steps has ended, for n documents |
| `SingleRun.StepKeepsInv` | backend/app/engine/worker.py:154-234 | every worker step and every foreign write keeps the single-delivery invariant: snapshot against stored rows, the documents behind the run, and where a cancel was first seen |
| `SingleRun.RunRecovers` | backend/app/engine/worker.py:142-234 | from any stored rows, whatever an earlier crash left, a delivery that is over leaves every document final, every counter the number of documents it is to count, and the terminal status the counters dictate unless the run was cancelled |
| `SingleRun.CancelFateStep` | backend/app/engine/worker.py:188-228 | while a live job is `cancelling`, no step or foreign write changes which documents it will skip or whether it will end cancelled |
| `SingleRun.CancelFate` | backend/app/engine/worker.py:188-234 | a live `cancelling` job ends cancelled exactly if a re-read was still to come or had seen it; documents before the cut keep their results and the rest are skipped |
| `SingleRun.CancelHonoured` | backend/app/engine/service.py:242-264 | the same for any whole run with anything before and after an accepted cancel; documents already visited keep exactly what they had, and an earlier cut is used exactly if the run had already seen a cancel |
| `SingleRun.DoneStays` | backend/app/engine/worker.py:230-234 | after the end, no later event makes a cancelled job uncancelled or the other way round |
| `SingleRun.DeletedIsLeft` | backend/app/engine/worker.py:154-195 | a delivery that still has to read, or re-read, a deleted job writes nothing more and ends with its next step, whatever else happens |
| `SingleRun.DeletedAtDocument` | backend/app/engine/worker.py:188-228 | one that is at a document other than the last finishes that document, changes no other and stops |
| `SingleRun.PickUpKeepsCancelIff` | backend/app/engine/worker.py:154-176 | a cancel between the first read and the pick-up survives it exactly if the job was read as running |
| `SingleRun.FinaliseOverwritesIff` | backend/app/engine/worker.py:230-234 | the finalising commit leaves another session's status alone exactly if the run resolves to the status it last read, and another session's document exactly if it has not changed that one |
| `Worker.JobStore.CancelJob` | backend/app/engine/service.py:242-264 | accepts exactly live queued, running or cancelling jobs, makes them cancelled or cancelling with the completion mark cleared, and writes nothing otherwise |
| `Worker.JobStore.MarkReviewed` | backend/app/engine/service.py:268-280 | accepts exactly live completed or partial jobs and changes only the status |
| `Worker.JobStore.ArchiveJob` | backend/app/engine/service.py:282-291 | accepts exactly live reviewed jobs and changes only the status |
| `Worker.JobStore.ReapRunning` | backend/app/engine/worker.py:94-105 | fails exactly a running, started job, whatever its age and even if deleted, and says whether it did |
| `Worker.JobStore.Drain` | backend/app/engine/worker.py:160-171 | a delivery that finds the job cancelled ends with one commit, after exactly the given foreign ones, that skips every document and fetches none |
| `Worker.JobStore.FetchOne` | backend/app/engine/worker.py:197-228 | one document takes two commits, each after exactly the foreign commits given for it, and changes only its own status, to what the fetcher gave |
| `Worker.JobStore.VisitOne` | backend/app/engine/worker.py:181-228 | one pass of the loop, under exactly the given foreign commits, follows the transition system whether the re-read finds the job deleted, cancelled or live |
| `Worker.JobStore.ResearchJob` | backend/app/engine/worker.py:142-252 | for any foreign commits before each of its reads and commits, the task leaves exactly the rows of the transition system under that schedule, stops at the step where the delivery ends, and tells whether that was the finalising commit |
| `Worker.JobStore.ResearchToTheEnd` | backend/app/engine/worker.py:142-252 | unless the job is soft-deleted meanwhile, the documents are the fetch results up to the cut and skipped behind it, each counter is the number of documents it is to count and the status is the resolved one; if only the reaper interferes, the rows are those one undisturbed delivery determines |
| `Redelivery.QuietStep` | backend/app/engine/worker.py:154-234 | in a run disturbed by sweeps alone, the rows at every point determine that the end is `Delivered` |
| `Redelivery.DeliveryIsDetermined` | backend/app/engine/worker.py:142-234 | the rows a delivery leaves, sweeps or not, are a function of the stored rows and the fetcher |
| `Redelivery.SweepsAreInvisible` | backend/app/engine/worker.py:94-105 | two-run form: deleting every sweep from a finished run gives a finished run with the same rows |
| `Redelivery.RedeliveryIdempotent` | backend/app/engine/worker.py:160-234 | any number of finished deliveries, each with its own sweeps, leaves the rows that the first one left, if the fetcher repeats itself |
| `Redelivery.RedeliveryAfterRun` | backend/app/engine/worker.py:160-234 | after a run that API calls disturbed, a further delivery keeps the status, and keeps documents and counters exactly unless the run was cancelled after fetching something |
| `Redelivery.RedeliveryReopens` | backend/app/engine/worker.py:162-176 | two steps of a redelivery put the job to running exactly if it is not cancelled or cancelling |
| `LifecycleGraph.CalmRunStaysInGraph` | backend/app/engine/schemas.py:42-51 | one delivery without a sweep over the live run and without a cancel in the two open windows commits only declared transitions |
| `LifecycleGraph.FreshJobFollowsGraph` | backend/app/engine/schemas.py:42-51 | the same for a newly queued job from the start of its delivery |
| `LifecycleGraph.CancelKeepsGraphIff` | backend/app/engine/worker.py:154-176 | an accepted cancel, the run then left alone, stays in the declared graph exactly if it is in neither window |
| `LifecycleGraph.SweepKeepsGraphIff` | backend/app/engine/worker.py:94-105 | a sweep over a live run stays in the declared graph exactly if the run's own fetches deliver no document and fail at least one, or there is none |
| `Fleet.ActEdge` | backend/app/engine/worker.py:88-234 | with any number of deliveries at once, each commit is an edge of an explicit relation, and a job that left `queued` never returns to it |
| `Fleet.EveryExecutionFollowsEdges` | backend/app/engine/worker.py:88-234 | so along every execution with crashes, duplicates, sweeps and API calls |
| `FleetEdges.EveryEdgeHappens` | backend/app/engine/worker.py:88-234 | the relation allows nothing spare: for each of its edges some execution from a newly created job ends with exactly that change |
| `Overlap.ExecutionKeeps` | backend/app/engine/worker.py:142-234 | any number of overlapping deliveries, API calls and sweeps keep the invariant: an in-flight status has a delivery that will resolve it, and every document is untouched, final or awaited |
| `Overlap.OverlapSettles` | backend/app/engine/worker.py:142-234 | so from a job no delivery has begun, without crash or deletion, once all overlapping deliveries are done the job is not running or cancelling, and if there was one every document is final and the job has left the queue |
| `Overlap.CrashLeavesRunning` | backend/app/engine/worker.py:119-130 | a lost delivery whose task does not come back leaves the job running with a document marked fetching |
| `Fleet.AloneIsSingleRun` | backend/app/engine/worker.py:142-234 | a delivery that works alone in the fleet does what the single-delivery system does |
| `Fleet.OneDeliverySettles` | backend/app/engine/worker.py:142-234 | from any rows and any other dead or idle deliveries, one more that works alone settles the job in 3n + 3 steps |
| `Fleet.StaleQueuedIsRescued` | backend/app/engine/repository.py:89-103 | whatever the broker lost, after the sweep a task for a queued job exists, and its delivery makes the job terminal within 3n + 3 steps |
| `Fleet.TasksConserved` | backend/app/engine/worker.py:88-130 | broker tasks and deliveries together grow only by publishing, which the sweep does exactly for a live queued job, and shrink only by a crash whose task is not returned |
| `Fleet.NoNewTasks` | backend/app/engine/worker.py:88-130 | so once a job has left the queue, no sweep, crash or duplicate adds a delivery |
| `DocTypes.ValidateDocTypes` | backend/app/engine/service.py:305-333 | the two loops compute the normalisation: all types for an empty request, refusal for an unknown name |
| `DocTypes.NormaliseSound` | backend/app/engine/service.py:305-333 | the list is never empty and has no duplicate (the per-job unique constraint cannot fire), holds exactly the types asked for, at their first places |
| `DocTypes.NormaliseRefuses` | backend/app/engine/service.py:326-330 | refused exactly if some name is unknown, and the refusal lists exactly those |
| `DocTypes.EmptyAsksAll` | backend/app/engine/service.py:308-312 | an empty request asks for all six types |
| `DocTypes.EachName` | backend/app/engine/adapters.py:38-45 | each of the six names of the API asks for its document |
| `DocTypes.EachAlias` | backend/app/engine/service.py:314-325 | any other name is read in small letters: six step names are aliases and everything else is refused |
| `DocTypes.NormaliseIdempotent` | backend/app/engine/service.py:305-333 | normalising the stored names again changes nothing |
| `DocTypes.RetryTakesFailed` | backend/app/engine/service.py:210-238 | a retry is refused for exactly the stated reasons, or adds one queued job whose documents are all queued and whose types are exactly the chosen failed ones, leaving every stored row as it was |
| `DocTypes.ChainShrinks` | backend/app/engine/service.py:210-238 | along any retry chain every type of a job had failed in every earlier job |
| `CreateJobs.ActKeepsInv` | backend/app/engine/service.py:151-195 | every step of every concurrent call, every crash and every deletion keeps the table invariant |
| `CreateJobs.CreateIsIdempotent` | backend/app/engine/service.py:151-195 | for any number of calls in any interleaving: one row per tenant and key, all successful callers get that job, losers leave no row, each job is published at most once and only after its commit, and a conflict means a deleted winner |
| `CreateJobs.DeletedWinnerConflicts` | backend/app/engine/models.py:64-71 | if only a deleted row holds the key, a call ends in a conflict and changes nothing |
| `CreateJobs.FoundIsReturned` | backend/app/engine/service.py:151-170 | a call that finds its key's live job when it looks returns that job, whatever the others do afterwards, deletion included |
| `CreateJobs.JobTable.CreateJob` | backend/app/engine/service.py:151-195 | one call alone takes the concurrent model's steps: an unused key adds one row published once, a used one adds none |
| `CreateJobs.Lookup` | backend/app/engine/repository.py:31-41 | finds a live row of that tenant and key, and misses only if every such row is deleted |
| `Addresses.MatchSymmetric` | backend/app/services/parcel.py:215-229 | comparing two addresses does not depend on their order |
| `Addresses.MatchReadsHouse` | backend/app/services/parcel.py:215-229 | an address with a house number matches itself, whatever it matches has the same number, and the answer is unknown exactly if a side has none |
| `Addresses.StreetsDecide` | backend/app/services/parcel.py:199-229 | different house numbers never match; with one number the answer is No exactly if each address has a telling word and they share none, and otherwise Yes. A telling word is one between a house number in front and a final number that is neither a listed suffix nor a direction |
| `Addresses.OakIsNotPine` | backend/app/services/parcel.py:215-229 | three concrete comparisons: another street, another suffix, another number |
| `Addresses.TwoStreets` | backend/app/services/parcel.py:215-229 | for every number, street name and suffix or direction: two such addresses match exactly if number and name agree |
| `Addresses.ListedIsNotTelling` | backend/app/services/parcel.py:192-200 | a listed suffix or direction in common does not make two streets one; `CommonSuffixes`, `MoreSuffixes`, `RoadSuffixes`, `RareSuffixes`, `Directions` and `MoreDirections` give every listed word |
| `Addresses.OtherWordTells` | backend/app/services/parcel.py:215-229 | any other word in common does |
| `Addresses.CleanSum` | backend/app/services/parcel.py:203-212 | cleaning keeps letters and digits, in upper case and in place, and drops everything else |
| `Addresses.MatchIgnoresAfterComma` | backend/app/services/parcel.py:181-212 | text after the first comma is never seen |
| `Addresses.SeesOnlyWords` | backend/app/services/parcel.py:181-212 | house number and street depend on the words before the first comma only, so spacing is invisible |
| `Text.WordsMeaning` | backend/app/services/parcel.py:203-212 | the words of a text are exactly its maximal runs between blanks |
| `Addresses.NoiseInvisible` | backend/app/services/parcel.py:181-229 | suffix, directional and punctuation words inserted inside an address, or behind its house number unless that hides a final number, never change a comparison |
| `Addresses.NumberFirstOrLast` | backend/app/services/parcel.py:181-229 | a house number in front of the street words or behind them is the same address, for every number and street whose first word does not start with a digit |
| `Situs.ComposeSitus` | backend/app/services/parcel.py:38-90 | the scanning loops with their set of used names compute the composition |
| `Situs.First` | backend/app/services/parcel.py:52-59 | a search returns a field it wants, and misses only if no field is wanted |
| `Situs.SitusIgnoresHidden` | backend/app/services/parcel.py:101-150 | deleting every excluded, owner or mail field never changes the situs |
| `Situs.SitusNoninterference` | backend/app/services/parcel.py:101-150 | two records equal in their visible fields have one situs |
| `SitusNames.NormMeaning` | backend/app/services/parcel.py:20-21 | two field names are one name exactly if they differ only in letter case, blanks, hyphens and underscores |
| `SitusNames.WantedAlike` | backend/app/services/parcel.py:52-59 | every search, and the rule that hides owner and mail fields, treats such names alike |
| `SitusNames.SitusOfRenamed` | backend/app/services/parcel.py:101-150 | respelling the fields of a record, and the names a county excludes, changes no situs |
| `SitusNames.SitusFromFull` | backend/app/services/parcel.py:125-131 | first choice: the first field that names a complete address, single-spaced |
| `SitusNames.SitusFromAlias` | backend/app/services/parcel.py:132-148 | second choice: the first field of the first alias that has one, in the order of `AliasOrder` |
| `SitusNames.SitusFromParts` | backend/app/services/parcel.py:60-90 | last choice, or the only one of a county that composes: number, predirection, name, type and postdirection in this order, and nothing without number and name |
| `SitusNames.StreetHasBoth` | backend/app/services/parcel.py:93-98 | a text can be a street address exactly if it has a letter and a digit |
| `SitusNames.SitusAddrExample` | backend/app/services/parcel.py:125-131 | a field SITUS_ADDR gives the situs |
| `SitusNames.PhyAddrExample` | backend/app/services/parcel.py:132-148 | so does a field PHY_ADDR, an alias |
| `SitusNames.PartsExample` | backend/app/services/parcel.py:60-90 | HOUSE_NO and STREET_NAME give number and name without the blanks around them, for all non-blank values; `DecimalHouse` is the case of a number stored as a decimal |
| `SitusNames.OwnerAddrIsHidden` | backend/app/services/parcel.py:45-58 | OWNER_ADDR is hidden, and `MailAddrIsHidden` says so of MAIL_ADDR |
| `Situs.CompositionSound` | backend/app/services/parcel.py:38-90 | the parts come from pairwise different visible non-blank fields, and a non-empty composition has number and street |
| `Parcels.ComposedHouse` | backend/app/services/parcel.py:60-90 | a situs composed around a numeric house field compares by exactly that number, also where the layer stores it as a decimal |
| `Joins.EnrichRelated` | backend/app/services/parcel.py:439-470 | the nested loops compute the join table by table |
| `Joins.EnrichExtends` | backend/app/services/parcel.py:439-470 | whatever the tables answer, a join only fills blank fields and adds new ones; nothing is lost or moved |
| `Joins.FillExactly` | backend/app/services/parcel.py:467-469 | one answered row, exactly: a blank takes the row's value of its name, every other field stays what and where it is, and the row's new names follow in its order |
| `Joins.JoinedNoninterference` | backend/app/services/parcel.py:439-470 | owner, mail and excluded fields of the record or of any row its tables answer cannot influence the situs after the join |
| `Joins.EnrichIsFillAll` | backend/app/services/parcel.py:439-470 | a join depends on its tables only through the rows they answered, each for the record as joined so far |
| `Parcels.FindCandidates` | backend/app/services/parcel.py:331-355 | the widening loop computes the search, a failed query included |
| `Parcels.SearchMeaning` | backend/app/services/parcel.py:331-355 | the candidates hold a match exactly if some radius does with all narrower ones answered, and are then the records of the smallest such radius; otherwise any candidates are marked buffered |
| `Parcels.SearchExactly` | backend/app/services/parcel.py:331-355 | the first query that fails or finds what is wanted decides the search; if there is none, the records of the widest non-empty radius are returned as buffered ones |
| `Parcels.ChooseMeaning` | backend/app/services/parcel.py:383-406 | the choice is confident exactly if a candidate matches, and is then the first that does; otherwise it is the first with the same house number, else the first with a situs, else the first |
| `Parcels.TryLayer` | backend/app/services/parcel.py:484-497 | one layer's attempt, with its failures, computes its result |
| `Parcels.ResolvedShows` | backend/app/services/parcel.py:408-437 | a layer gives a parcel exactly if it was found and its search ended with records, all of one query; situs, match and count are those of the record and the candidates |
| `Parcels.ResolveParcel` | backend/app/services/parcel.py:473-524 | the first layer with a record decides; the directory fallback means no layer had one |
| `Parcels.TrustGate` | backend/app/engine/orchestration/context.py:222-227 | for a non-empty address and no join these coincide: trusted, address match true, not flagged buffered, some query held a match; and the record is from the smallest such radius |
| `Parcels.TrustedParcelMatches` | backend/app/engine/orchestration/sources.py:165 | over all layers, if the one that answered does not join, the parcel is trusted exactly if it matches the non-empty address, which is what the hard-coded `address_match=True` asserts |
| `Parcels.EmptyAddressGate` | backend/app/engine/orchestration/context.py:226-227 | without an address, joined or not, the gate trusts exactly a hit of the point query, though nothing was compared |
| `Parcels.JoinedGate` | backend/app/services/parcel.py:491-493 | with a join a match is still always trusted, and a parcel is trusted without one exactly if the point query held a match and the join left its first match a situs without a house number |
| `JoinExample.TrustedWithoutMatch` | backend/app/services/parcel.py:491-493 | a concrete layer, record and table for which the gate trusts a parcel whose situs confirms nothing |
| `Pipeline.Context.ScrapeDocuments` | backend/app/engine/orchestration/sources.py:296-345 | every call gives the same result, an empty one too, and the site is visited at most once in a context's life |
| `Pipeline.Context.Execute` | backend/app/engine/orchestration/sources.py:296-345 | an adapter that asks for the scrape any number of times behaves as if it had been done beforehand |
| `Pipeline.Context.RunStep` | backend/app/engine/orchestration/steps.py:56-106 | fetch, failure, fallback and last resort give the specified step, and the manifest grows by its records or, if an exception escapes, not at all |
| `Pipeline.Context.BuildSteps` | backend/app/engine/orchestration/steps.py:34-53 | the run makes the wanted steps in reference order, each independent of the others, and the manifest grows by exactly their records; without a documents directory it raises and logs nothing |
| `Pipeline.IncludeIsProjection` | backend/app/engine/orchestration/steps.py:34-53 | a run of some steps is the full run filtered to them |
| `Pipeline.EscapesIff` | backend/app/engine/orchestration/steps.py:56-74 | an exception escapes the steps exactly if some wanted step raises a source error and raises again in its fallback |
| `Pipeline.RunRaisesIff` | backend/app/engine/orchestration/steps.py:34-53 | the whole assembly raises exactly then, or if the documents directory cannot be created |
| `Pipeline.ErrorMeansFallback` | backend/app/engine/orchestration/steps.py:56-74 | a step carries an error exactly if its fetch raised, and then shows nothing of that fetch |
| `Pipeline.SuccessShows` | backend/app/engine/orchestration/steps.py:56-106 | a fetch that succeeds becomes a step with its status, files and records and no error; outcome and default confidence follow from the status, and manual review exactly if asked for |
| `Pipeline.FailureShows` | backend/app/engine/orchestration/sources.py:66-107 | the outcome, code and retry flag of a step whose fetch raised, for every kind of failure and status code |
| `Pipeline.NoAdapterShows` | backend/app/engine/orchestration/steps.py:56-60 | a document without an adapter is a bare link and no failure |
| `Pipeline.StepKeys` | backend/app/engine/orchestration/steps.py:34-53 | a run that returns has one step for each wanted document, in order |
| `Sources.FetchFacts` | backend/app/engine/orchestration/sources.py:112-638 | no registered adapter ever returns the error status |
| `Sources.ShippedStep` | backend/app/engine/orchestration/sources.py:623-638 | each registered adapter always yields a step; one whose source failed is a link without files or records |
| `Sources.ClerkSteps` | backend/app/engine/orchestration/sources.py:348-434 | the deed step carries the deed of the scrape and the plat step its plat |
| `Sources.FamilySteps` | backend/app/engine/orchestration/sources.py:436-472 | the steps that share the scrape carry no file, and two only link |
| `Sources.ParcelSteps` | backend/app/engine/orchestration/sources.py:112-241 | the parcel and tax steps are fetched exactly for a trusted parcel with records; a buffered match asks for review |
| `Sources.FederalSteps` | backend/app/engine/orchestration/sources.py:475-576 | the flood step offers its report, or else the map, and logs both; the control step offers the data sheets and is empty without marks |
| `Sources.ShippedRunsReturn` | backend/app/engine/orchestration/sources.py:9-13 | so no failure of a registered adapter escapes the steps of any run |
| `BlobKeys.KeyTellsDocument` | backend/app/services/storage.py:34-46 | two keys are equal only for the same tenant, order and document, whatever the file names |
| `BlobKeys.OrgTellsTenant` | backend/app/engine/adapters.py:147 | two tenants share a key prefix only if one is missing and the other is called `research` |
| `BlobKeys.NamesAreClean` | backend/app/engine/adapters.py:38-45 | the document type names satisfy what the key scheme needs |
| `BlobKeys.ExtensionShape` | backend/app/services/storage.py:44-45 | what a file name adds to a key is empty or starts with a point, and holds no slash |
| `BlobKeys.ExtensionSurvives` | backend/app/services/storage.py:34-46 | the first eleven characters of an ordinary extension are kept in the key |
| `BlobKeys.KeyOfPlainFile` | backend/app/services/storage.py:34-46 | the key of an ordinary file, spelled out; only an unassigned document has none |
| `BlobKeys.DirectoryIsDropped` | backend/app/services/storage.py:44-45 | directories in front of a file name do not show in the key |
| `Uploads.Vault.CopyIn` | backend/app/services/storage.py:107-112 | a copy that fails may leave anything under its own key and touches no other |
| `Uploads.Vault.CreateEvidence` | backend/app/engine/evidence_source.py:54-88 | both rows with fresh ids that refer to each other, or neither |
| `Uploads.Vault.UploadArtifact` | backend/app/engine/adapters.py:134-193 | the loop with its missing files, existing blobs and failures has the specified effect on store, rows and document |
| `Uploads.BlobChangesIff` | backend/app/engine/adapters.py:152-173 | in one upload a stored blob changes exactly if the existence probe of its key failed and other bytes were written; none is removed |
| `Uploads.BlobsAreForever` | backend/app/engine/adapters.py:152-173 | over any history in which the probes answered, the bytes under a key and the evidence rows never change |
| `Uploads.RacedStoreChangesIff` | backend/app/engine/adapters.py:152-173 | of two overlapping uploads the later copy overwrites a blob exactly if its probe had found the key free, or failed, and other bytes are there by now |
| `Uploads.OthersNeverTouch` | backend/app/services/storage.py:34-46 | uploads for other documents, whatever fails in them, never touch a document's blobs |
| `Uploads.UploadIsBacked` | backend/app/engine/evidence_source.py:54-88 | a document given a file has its File and OrderFile rows, and the key is in the store |
| `Uploads.ArtifactIsFirst` | backend/app/engine/adapters.py:145-150 | the artifact is that of the first of the step's files that is on disk, every name before it not being there |
| `Uploads.BackingLasts` | backend/app/engine/evidence_source.py:54-88 | and that stays so over any further uploads |
| `Uploads.ReferenceRoundTrip` | backend/app/engine/evidence_source.py:91-108 | the file id given to a document leads back, after any further uploads, to the name, key, size and digest recorded for it, which are those of its staged file, and the key is in the store |
| `Uploads.DigestDescribesBlobIff` | backend/app/engine/adapters.py:156-179 | the recorded digest is the stored blob's exactly if the key was not found taken or both files have one digest |
| `Uploads.StaleDigestExample` | backend/app/engine/adapters.py:156-172 | two uploads of different bytes for one document record a digest that is not the blob's |
| `Uploads.StatusAfterUpload` | backend/app/engine/adapters.py:134-193 | a good step's document fails exactly if its upload went wrong, and is `uploaded` without a file exactly if none of its files was on disk |
| `Uploads.CleanUploadCompletes` | backend/app/engine/adapters.py:134-193 | an upload in which nothing goes wrong gives the document a file under its key, whatever is in the store |
| `Uploads.RetryAfterFailure` | backend/app/engine/adapters.py:152-173 | after a failed upload under a free key, a clean retry keeps what a failed copy left there and records the digest of the whole file, which is the blob's exactly if the two digests agree; after failed rows, or a copy that left nothing, it is the blob's |
| `Fetcher.Fetch` | backend/app/engine/adapters.py:87-129 | the fetcher returns nothing for unknown names; it raises exactly if the context, the steps or the run's own files fail, and then stores nothing; otherwise it has the specified documents and store |
| `Fetcher.FetchedExactly` | backend/app/engine/adapters.py:103-129 | when the run returns, the documents are exactly the canonical types asked for |
| `Fetcher.OneDocument` | backend/app/engine/worker.py:201-203 | asked for one document, as the worker does, the fetcher returns that document alone, or raises exactly if its step escaped or the run's files could not be written |
| `Fetcher.ReadyIsUploaded` | backend/app/engine/adapters.py:87-193 | a requested document whose fetch is ready, with a file on disk and a clean upload, comes back uploaded with that file's size and digest under its key |
| `Fetcher.StepBecomes` | backend/app/engine/adapters.py:226-233 | a link counts as fetched, nothing found as skipped and an error as failed, and none of them stores anything |
| `Fetcher.WhyDocumentsFail` | backend/app/engine/adapters.py:226-233 | for any adapters, the statuses are final, and a document fails exactly if the run could not write its files, its fetch escaped, its step is an error or its upload went wrong |
| `Fetcher.ErrorTells` | backend/app/engine/orchestration/sources.py:89-107 | a source that answered badly is recorded as unavailable and one that did not answer as a timeout; only refusals and missing pages are not worth a retry |
| `Fetcher.SourceErrorTells` | backend/app/engine/adapters.py:236-250 | for a source error the outcome decides, and for the other outcomes its code |
| `Fetcher.OnlyUploadsFail` | backend/app/engine/adapters.py:226-233 | with the registered adapters it fails exactly if the run could not write its files or the upload went wrong; a failed source leaves it fetched |
| `EndToEnd.CompletedMeans` | backend/app/engine/worker.py:181-234 | a delivered job is completed exactly if it has documents and for each the property resolved, the run wrote its files and the upload did not go wrong |
| `Deeds.UnitHereMatches` | backend/app/services/clerk_scraper.py:223 | the deterministic reading of the unit pattern agrees with every way of matching it |
| `Deeds.UnitHereFound` | backend/app/services/clerk_scraper.py:223 | what it reads is a match |
| `Deeds.UnitIsLeftmost` | backend/app/services/clerk_scraper.py:223 | the captured number is that of the leftmost match |
| `Deeds.TokensAreSaid` | backend/app/services/clerk_scraper.py:226 | the tokens of a text are exactly its maximal runs of letters and digits, in upper case |
| `Deeds.NameIsFirstTelling` | backend/app/services/clerk_scraper.py:196-203 | a subdivision is named by its first two tokens that are neither numbers nor stop words, or by the one there is |
| `Deeds.DescribesMeaning` | backend/app/services/clerk_scraper.py:223-230 | a row describes it exactly if its legal text says each of these words, and the unit number if there is one |
| `Deeds.BeforeIsPrecedes` | backend/app/services/clerk_scraper.py:234-235 | dates are compared in dictionary order, characterised by the first place where they differ |
| `Deeds.PickIsVesting` | backend/app/services/clerk_scraper.py:206-237 | no pick exactly if the subdivision has no telling word or no deed row describes it; otherwise a describing deed of the latest date, among the grantee's if there are any |
| `Deeds.LaterDeedIsPicked` | backend/app/services/clerk_scraper.py:234-237 | of two deeds to the owner the later is picked, whichever comes first; `TwentyTwentyIsPicked` has two dates |
| `Deeds.DeedTypes` | backend/app/services/clerk_scraper.py:190-198 | every listed deed type, and four that are none; `StopWords` lists the words that name nothing |
| `Deeds.PickIgnoresOrder` | backend/app/services/clerk_scraper.py:206-237 | any two row lists with the same rows, in any order and with any repetition, give the same date and party side |
| `Deeds.RecentIsFirst` | backend/app/services/clerk_scraper.py:234-235 | among rows of the latest date the first one wins |
| `Deeds.PlatPageIsFirst` | backend/app/services/clerk_scraper.py:240-252 | the plat page is that of the first describing row, and none exactly if there is none or no telling word |
| `Captures.NewVision.Browse` | backend/app/services/clerk_scraper.py:88-112 | the listener records exactly the readable images that arrived, in order, and the last readable page count |
| `Captures.NewVision.CapturePages` | backend/app/services/clerk_scraper.py:152-187 | the loops end in the session, with the clicks and for the reason, that the viewer determines, and return the album of what was captured |
| `Captures.CaptureIsBounded` | backend/app/services/clerk_scraper.py:152-180 | for every viewer: at most target + 3 clicks, where the target is the page count held after the initial wait, and at most 41 browser calls and 27 for each click; exactly what arrived is captured; and it stops early only for want of a control, of a working click, or of an image during the click and 25 waits |
| `Captures.CompleteIff` | backend/app/services/clerk_scraper.py:163-180 | as many page numbers as the target are captured exactly if they come within target + 3 rounds in each of which the control is there and works and an image arrives |
| `Captures.CooperationCompletes` | backend/app/services/clerk_scraper.py:152-187 | if every round before the target is reached advances and brings a new page number, the album has at least as many images as the document declares pages |
| `Captures.PageByPageIsCaptured` | backend/app/services/clerk_scraper.py:152-187 | a viewer of an n-page document that answers each click with the next page is such a viewer, so the album has n images at least |
| `Captures.AwaitedFacts` | backend/app/services/clerk_scraper.py:159-178 | a wait ends with the first call that brings an image, none before it having brought one, or after all its ticks without any |
| `Captures.CaptureTells` | backend/app/services/clerk_scraper.py:88-187 | over all responses of a capture, by index: it holds every readable image in the order they came, and where one page is expected an image that is there ends it |
| `Captures.TargetTells` | backend/app/services/clerk_scraper.py:152-163 | the target is the last readable page count of the responses before the stepping, or one if there was none or it was zero |
| `Captures.FirstOnIsFirst` | backend/app/services/clerk_scraper.py:181-187 | the image of a page is that of the first shot with its number |
| `Captures.Compile` | backend/app/services/clerk_scraper.py:181-187 | the result holds the first image of each page number in strictly ascending page order, and nothing else |
| `Captures.AlbumDetermined` | backend/app/services/clerk_scraper.py:181-187 | that fixes the images: a capture has one album only |
| `Captures.AlbumSize` | backend/app/services/clerk_scraper.py:166 | one image for each distinct page number, the count the loop tests |

## Left out

- HTTP, the browser, PDF and image handling, FastAPI, Pydantic shapes, logging, migrations: replaced by oracles that may return anything or fail.
- Timestamps are kept as set or not set; error texts, `retry_count`, `cancel_reason`, links, summaries and callback delivery are not part of this model.
- Documents of a job have a fixed order; the database reads committed data, the reads at worker.py:154 and 158 happen together, and each API call and each reaper update is one atomic step.
- Whether a queued job is stale, and retries that Celery itself schedules: the sweep may happen at any time, and a crash may or may not return its task to the broker.
- With several deliveries at once neither the counters nor which delivery's result a document keeps are claimed. After a crash, `Fleet.OneDeliverySettles` is what is claimed.
- `Fleet.StaleQueuedIsRescued`: liveness is stated for the delivery that then works alone, because nothing bounds how often others interfere.
- `Worker.JobStore.ResearchJob`: foreign commits change the job row only; a second worker's document writes appear in `Fleet` alone.
- Text is ASCII where spaces, digits and letter case matter; `str.lower` on requested type names is a parameter.
- Geocoding, the query boxes and their trigonometry, lot areas, hints, parcel-ID search and county registry data.
- `Parcels.ResolveParcel`: the notes it keeps of failed layers are not modelled.
- `Joins.JoinedNoninterference`: is about the rows that were joined; which rows a table answers may depend on any field.
- `Sources.ShippedStep`: each adapter's own network and file access is given by a World; the appraiser's record-card branch is absent because its context field is never None and so never filled.
- `Pipeline.Context.Execute`: an adapter asks for the scrape a bounded number of times; building a step record from an adapter's values does not fail.
- The store is the local one, and asking whether a staged file exists does not itself raise; S3 differs in how a probe or copy fails, which the same oracles cover. Nothing deletes blobs, soft deletion of evidence rows and MIME types are not modelled, and paths are POSIX paths.
- `Uploads.BlobsAreForever`: assumes that existence probes answer; `Uploads.BlobChangesIff` says exactly what happens when one does not.
- `Captures.NewVision.CapturePages`: search, opening a result, and saving the PDF; the other clerk portals.
