# minireg: a verified model

minireg is a caching package and image registry. This project models the parts of it
whose correctness no single function states, and proves what they are for:

* **The image store and scan pipeline as one state machine** (`Tables`, `Gate`,
  `Registry`, `Scanning`, `Push`, `Housekeeping`, `Effects`, `Reachable`, `Serving`,
  `ScanHistory`, `Reports`). The tables are one value, `Db`; each transaction is one atomic
  step; upstreams may answer anything. Every operation is a method that updates the fields
  of a `Session` step by step as the source does, and is proved equal to a function from
  tables to tables; `Effects` says what that function does to each row. Invariants are
  proved for every step and then for every run: `Reachable.RunKeeps`.
* **Versions and the npm range compiler** (`Text`, `SemVer`, `SemVerText`, `PythonOrder`,
  `StableSort`, `SemVerRange`). A range is compiled to comparators with synthetic `-0`
  bounds; the compiled form accepts exactly what a direct reading of its terms accepts.
  Four independent orders on version strings are one order: section 11 of Semantic
  Versioning 2.0.0.
* **Concurrency** (`TagCache`, `TagRows`, `HerdGuard`, `Lease`, `LoginLimiter`). Tag revalidation,
  counted locks, the renewed lease and the take-then-refund login limiter, each as a
  transition system over every interleaving.
* **Three algorithms** (`OsvRefresh`, `Requirements`, `ImageNames`). The bisecting batch
  scan and its refresh loop, the include traversal of requirements files, and image-name
  routing with `/v2` path parsing.

`dafny verify dfyconfig.toml` checks everything.

## Where the code and its own words differ

The model follows the code. Each of these is a lemma with a concrete case, next to the
exact condition under which the promise holds.

* A push is meant to open no blob of another repository, because what it references must
  be in the pushed-to repository already. But the references checked are those read from
  the request, and bytes stored before keep the ones read then. A document without a
  media type of its own reads as an image or as an empty index, as its Content-Type says:
  `Reachable.PushCanGrant` is a run in which one served by an upstream as an image and
  then pushed as an index makes a repository answer for a blob uploaded to another.
  `Push.PushGrantsNothing`: a push grants nothing exactly when it is refused, or when
  everything reached by rows stored for its bytes, if there are any, is already here.
* A heartbeat or a failure report is meant to come from the worker that claimed the job,
  but with an empty worker name it is accepted for anyone's job:
  `ScanHistory.UnnamedWorkerAccepted`, and `ScanHistory.NamedWorkerIsLastClaimer` for the
  exact condition. (The check is shared with results, whose form requires the field.)
* Wrong guesses from elsewhere are meant not to lock an owner out. A username may be
  spelled like another account's per-address bucket, and then they are counted there:
  `LoginLimiter.OwnerShutOut`. `LoginLimiter.BucketsMeet` and
  `LoginLimiter.MeetingNeedsTheMarker` say exactly which attempts share a counter, and
  `LoginLimiter.GuessesFromElsewhere` exactly when guesses from one other address
  shut an owner out; with numeric addresses, a username without `:ip:` never does
  (`LoginLimiter.PlainNamesShutNobodyOut`).
* A tag's row is meant to carry a digest the upstream gave during the revalidation that
  set `checked_at`. It does in every run in which each confirming commit finds the row
  naming the digest it probed, whatever else overlaps (`TagCache.AnswersAreFresh`); a
  commit that finds another digest keeps the promise exactly when the upstream gave that
  one too since it began (`TagCache.ConfirmingAnother`). The herd guard is enough for it
  (`TagCache.GuardedRunsAgree`), and two overlapping revalidations can break it
  (`TagCache.OverlapIsNotFresh`).
* `is_valid_semver` is documented as strict, but its `$` lets one final newline through,
  and then the CLI has no key for the version: `SemVerText.TrailingNewlineIsValid` and
  `SemVerText.CliReadsValidSemver`.
* Routing a canonical name returns the same target everywhere except on the Docker Hub
  mirror host, where it never does: `ImageNames.RouteAgain`.

## Model

| member | source | states |
|---|---|---|
| `SemVer.PrecedenceIsTotalPreorder` | backend/app/core/semver.py:112-167 | Precedence is reflexive, antisymmetric up to equivalence, total and transitive, as sections 10 and 11 of Semantic Versioning 2.0.0 require |
| `SemVer.PrecedenceMeans` | backend/app/core/semver.py:112-167 | Precedence is the order section 11 of Semantic Versioning 2.0.0 describes, said without comparing keys: an earlier triple, a prerelease before its release, the first identifier that differs, numbers before words, words by the first character that differs, a prefix before what it starts |
| `SemVer.KeysOrderByPrecedence` | backend/app/core/semver.py:112-154 | Python's comparison of the sort keys of `SemVer`, of `semver_key` and of the CLI gives exactly the precedence of the two versions |
| `SemVer.ZeroPrereleaseIsLeast` | backend/app/core/semver.py:297-386 | `M.m.p-0` is the least version of its triple: being below it means having an earlier triple |
| `SemVerText.ParsePrint` | backend/app/core/semver.py:79-109 | Parsing the printed form of a well-formed version returns it |
| `SemVerText.PrintParse` | backend/app/core/semver.py:79-109 | Printing a strictly parsed version returns the string it was read from |
| `SemVerText.PrereleaseIdentMeans` | backend/app/core/semver.py:31-35 | The prerelease identifiers are those of the regular expression: `0`, a number without a leading zero, or digits, letters and dashes that are not all digits |
| `SemVerText.StrictIsTolerated` | backend/app/core/semver.py:79-94 | On a strict version the tolerant parser's blanks, `v` and `=` change nothing |
| `SemVerText.ToleranceMeans` | backend/app/core/semver.py:33-94 | What parses is exactly a strict version with any `v`, `=` and blanks in front and any blanks behind, and it parses as that version |
| `SemVerText.CompareAgreesWithSemverKey` | backend/app/core/naming.py:285-295 | `compare` and `semver_key` order every two strings alike, parseable or not |
| `SemVerText.AllOrdersAgree` | cli/minireg.py:1681-1690 | On strict versions `compare`, `semver_key`, `SemVer` and the CLI's own key all give the precedence |
| `SemVerText.CliPads` | cli/minireg.py:1681-1690 | The CLI reads a version of one or two numbers of any width as if zeros followed |
| `SemVerText.AtLeastIsPrecedence` | cli/minireg.py:1693-1698 | The CLI finds a pin at or above a fix exactly when precedence, and the server's `compare`, does |
| `SemVerText.CliReadsValidSemver` | backend/app/core/naming.py:278-282 | A valid version always parses, and the CLI has a key for it exactly when it does not end in a newline |
| `SemVerText.TrailingNewlineIsValid` | backend/app/core/naming.py:270-282 | `1.2.3` with a final newline passes the strict check and has no CLI key |
| `SemVerText.TextLeqIsTotalPreorder` | backend/app/core/semver.py:157-169 | `compare` is a total preorder on all strings |
| `SemVerText.MaxSemverIsGreatest` | backend/app/core/naming.py:302-309 | `max_semver` returns a member of its pool, the stable versions if there are any, that no member outranks and no later one ties with |
| `SemVerText.StableMeansRelease` | backend/app/core/naming.py:302-309 | For a strict version, having no dash before the build part means carrying no prerelease |
| `StableSort.LastIsGreatest` | backend/app/core/naming.py:298-309 | The last element of the sorted list is the last in the list of those that none exceeds |
| `SemVerRange.TestSet` | backend/app/core/semver.py:215-231 | A comparator set accepts a version exactly when all comparators pass and, for a prerelease, one of them opts it in |
| `SemVerRange.ComparatorMeans` | backend/app/core/semver.py:183-204 | `>` accepts exactly the versions after the bound, `>=` those not before it, `<` those before it, `<=` those not after it, and `=` or nothing those that differ from it in build metadata alone |
| `SemVerRange.ParseComparatorSet` | backend/app/core/semver.py:411-443 | Appending the comparators of each token in turn builds the compiled clause |
| `SemVerRange.PlainFidelity` | backend/app/core/semver.py:340-386 | The comparators of a primitive or x-range term accept what the term says, and opt in only prereleases the user wrote |
| `SemVerRange.TildeFidelity` | backend/app/core/semver.py:297-310 | The same for `~` |
| `SemVerRange.CaretFidelity` | backend/app/core/semver.py:313-337 | The same for `^`: the left-most non-zero component stays |
| `SemVerRange.HyphenTerms` | backend/app/core/semver.py:265-294 | The terms a hyphen range is rewritten to mean its two bounds, partial ones included |
| `SemVerRange.ClauseFidelity` | backend/app/core/semver.py:411-443 | Compiling one alternative preserves its meaning for every version |
| `SemVerRange.RangeFidelity` | backend/app/core/semver.py:238-252 | For every range and version, the compiled comparator sets accept exactly what the terms say |
| `SemVerRange.PrereleaseNeedsUser` | backend/app/core/semver.py:215-252 | A prerelease inside a range is accepted by an alternative, of terms or hyphenated, in which the user wrote a prerelease of the same major.minor.patch |
| `SemVerRange.MaxSatisfying` | backend/app/core/semver.py:487-502 | The result is the first of the greatest versions inside the range, and None exactly when there is none |
| `Gate.RulesVerdictIsPlain` | backend/app/docker/policy.py:304-339 | Refused exactly when some finding is denied, or unaccepted and known exploited, or unaccepted and at the threshold |
| `Gate.ThresholdMeans` | backend/app/docker/policy.py:43-48 | Which severities each threshold catches, and that with `only_fixable` a fixed version must be named |
| `Gate.ReasonMeans` | backend/app/docker/policy.py:304-339 | A refusal names the deny list before known exploits and those before the threshold, each with the number of findings it caught |
| `Gate.GateCounts` | backend/app/docker/policy.py:245-274 | The loop over grouped rows counts, per key set, what the findings themselves give |
| `Gate.EvaluateRules` | backend/app/docker/policy.py:304-339 | The verdict from grouped counts is the verdict over the findings, reason and number included |
| `Gate.ThresholdHitsCounts` | backend/app/docker/policy.py:296-301 | The sum over severities at or above the threshold is the number of such findings |
| `Gate.IndexVerdictIsPlain` | backend/app/docker/policy.py:361-408 | An index is refused exactly when one of its platform images is |
| `Gate.OnlyOwedScansRetry` | backend/app/docker/policy.py:411-471 | A refusal says to try again exactly for an image that is gated and whose scan is still owed |
| `Gate.BlobVerdict` | backend/app/docker/registry.py:701-735 | The loop over the manifests that name a layer refuses it exactly in quarantine or when there are some and all are refused |
| `Gate.TighteningRules` | backend/app/docker/policy.py:304-339 | Tightening any rule never turns a refusal into an allow |
| `Gate.TighteningPull` | backend/app/docker/policy.py:411-471 | The same for pulls of images, indexes and everything else, recorded refusals staying refusals |
| `Gate.TighteningBlob` | backend/app/docker/registry.py:701-735 | The same for layers |
| `Tables.InitHolds` | backend/app/docker/registry.py:175-183 | The empty registry satisfies every invariant |
| `Registry.StoreManifest` | backend/app/docker/registry.py:186-280 | Stores a manifest once per digest, with its references and the attestations it reveals |
| `Registry.SetTag` | backend/app/docker/registry.py:419-445 | Points the tag at the manifest and sets `checked_at`, new row or old |
| `Registry.FetchByDigest` | backend/app/docker/registry.py:352-401 | Bytes the upstream sent are stored and linked in its repository |
| `Registry.Revalidate` | backend/app/docker/registry.py:506-574 | Each way a revalidation ends leaves exactly the specified tag, link and manifest rows |
| `Registry.ReusableWasServed` | backend/app/docker/registry.py:476-503 | What may be followed without a download was served by this repository's own upstream |
| `Registry.StoredKeeps` | backend/app/docker/registry.py:186-280 | Storing a manifest keeps every invariant |
| `Registry.RevalidatedKeeps` | backend/app/docker/registry.py:506-574 | Every end of a revalidation keeps every invariant, provenance through the no-GET shortcut included |
| `Effects.StoredMeans` | backend/app/docker/registry.py:186-280 | Bytes stored already are not stored again; a new row holds what was parsed, who sent it and when, and waits for a scan exactly if it is an image; of the old rows only those an index calls attestations change |
| `Effects.FetchedMeans` | backend/app/docker/registry.py:352-401 | A fetch leaves the row with that digest linked here, a new link pulled now and without verdict, an old one as it was, and no tag touched |
| `Effects.RevalidatedMeans` | backend/app/docker/registry.py:506-574 | After a refetch the tag names the body's digest, after a move the one the upstream named if this upstream gave it before, after a confirmation the manifest it had, each checked now; a tag that is gone upstream goes; every other tag stays |
| `TagRows.CommitsAlike` | backend/app/docker/registry.py:506-574 | Every way a revalidation ends leaves the tables with the row that the same commit leaves in the freshness model, so what `TagCache` proves is about these rows |
| `TagRows.MissingAlike` | backend/app/docker/registry.py:562-574 | The same for a tag the upstream no longer has |
| `TagRows.TagRowsAreFresh` | backend/app/docker/registry.py:404-587 | Over every run of everything the registry does, revalidations overlapping as they may, in which no confirming commit met another digest: a tag's row names a manifest whose digest the upstream gave the tag during the revalidation that set `checked_at` |
| `Scanning.Enqueue` | backend/app/docker/scanning.py:67-111 | Queues at most one job per manifest, or raises the waiting one's priority |
| `Scanning.FirstWaiting` | backend/app/docker/scanning.py:124-129 | The job taken has the lowest priority value and, among those, the lowest id |
| `Scanning.Claim` | backend/app/docker/scanning.py:114-144 | Requeues lapsed jobs, then takes the next one or skips it as unscannable |
| `Scanning.Fail` | backend/app/docker/scanning.py:151-170 | Back in the queue below the attempt limit, given up otherwise, manifest status along with it |
| `Scanning.RenewLease` | backend/app/api/docker_api.py:1384-1403 | A heartbeat is accepted exactly for a running job of that worker, and then extends its lease |
| `Scanning.TakeFailure` | backend/app/api/docker_api.py:1473-1483 | A failure report is accepted exactly for a running job of that worker |
| `Scanning.TakeResult` | backend/app/api/docker_api.py:1423-1453 | A result is ingested, or counted as a failed attempt when it does not parse |
| `Scanning.Ingest` | backend/app/docker/scanning.py:339-439 | Findings replaced, counted and flagged, job done, verdict applied |
| `Scanning.FlagFindings` | backend/app/docker/scanning.py:362-430 | Each finding's flag is catalogue membership and the count is the number flagged |
| `Scanning.ApplyPushPolicy` | backend/app/docker/scanning.py:442-484 | The verdict goes onto the image's link in every local repository and nowhere else |
| `Scanning.ReapplyPushPolicy` | backend/app/docker/scanning.py:487-505 | One image at a time, every scanned image of every local repository is judged again |
| `Scanning.PutPolicy` | backend/app/api/docker_api.py:1121-1150 | Saving a policy leaves every cached verdict judged by the new one |
| `Scanning.RefreshCatalogue` | backend/app/docker/scanning.py:604-666 | A catalogue refresh reflags every finding, recounts every scanned manifest and judges again; an empty one is refused |
| `Scanning.EnqueueMeans` | backend/app/docker/scanning.py:67-111 | Asking for a scan leaves the image exactly one job, at the more urgent priority if it was waiting and untouched if running, and changes no other job |
| `Scanning.EnqueuedKeeps` | backend/app/docker/scanning.py:67-111 | Queueing keeps every invariant |
| `Scanning.ClaimedKeeps` | backend/app/api/docker_api.py:1340-1381 | A claim keeps every invariant |
| `Scanning.FailedJobKeeps` | backend/app/docker/scanning.py:151-170 | A failed attempt keeps every invariant |
| `Scanning.ReportedKeeps` | backend/app/api/docker_api.py:1423-1454 | A result, good or bad, keeps every invariant |
| `Scanning.PolicySavedKeeps` | backend/app/api/docker_api.py:1121-1150 | A policy save keeps every invariant, the cached verdicts included |
| `Scanning.KevRefreshedKeeps` | backend/app/docker/scanning.py:604-666 | A catalogue refresh keeps every invariant, flags, counts and cached verdicts included |
| `Scanning.RescannedKeeps` | backend/app/api/docker_api.py:1069-1104 | An admin's rescan keeps every invariant |
| `Effects.EnqueuedMeans` | backend/app/docker/scanning.py:67-111 | Only an unscanned or failed image without a job is newly shown as queued; a scanned one stays scanned |
| `Effects.ClaimedMeans` | backend/app/docker/scanning.py:114-144 | A claim hands out the first job that waits or whose lease has run out, most urgent and then oldest, for 120 seconds, or skips it as no image to scan; other lapsed jobs wait again; a job whose lease still runs is left as it is |
| `Effects.FailedMeans` | backend/app/docker/scanning.py:151-170 | After three attempts, or without retry, job and image have failed; otherwise the job waits again and nobody has it |
| `Effects.RenewedMeans` | backend/app/docker/scanning.py:147-148 | A heartbeat moves the end of the lease to 120 seconds from now and nothing else |
| `Effects.ReportedMeans` | backend/app/docker/scanning.py:339-439 | An accepted report becomes the findings entry by entry, id, severity and fixed version, flagged by the catalogue; image scanned, job done, every other image's row and findings unchanged |
| `Effects.RejectedMeans` | backend/app/api/docker_api.py:1423-1453 | A report for a job that is not this worker's changes nothing; one that does not parse, or whose image is gone, is a failed attempt |
| `Effects.KevRefreshedMeans` | backend/app/docker/scanning.py:604-666 | After an accepted refresh the catalogue is exactly the feed's CVE ids, and every finding is flagged by it and otherwise what it was |
| `Effects.RescannedMeans` | backend/app/api/docker_api.py:1069-1104 | An admin's rescan queues an image some repository holds, and changes nothing about one that none does |
| `Effects.PrunedMeans` | backend/app/docker/scanning.py:591-600 | Pruning drops exactly the old jobs that are finished |
| `Push.PutManifest` | backend/app/docker/push.py:165-228 | Refused with nothing written when a reference is missing, otherwise stored, linked, judged and tagged |
| `Push.FindRef` | backend/app/docker/push.py:185-201 | A child must be linked here; a layer or config must have its file and be held here |
| `Push.DeleteManifest` | backend/app/docker/push.py:231-251 | Takes the link and every tag of the manifest in this repository, nothing else |
| `Push.FinishUpload` | backend/app/docker/push.py:68-127 | The blob row becomes a local one and the repository holds it |
| `Push.PurgeRepository` | backend/app/api/docker_api.py:1033-1066 | A cached repository goes with all its tags, links and blobs; a local one is refused |
| `Push.PushedKeeps` | backend/app/docker/push.py:165-228 | A push keeps every invariant |
| `Push.PurgedKeeps` | backend/app/api/docker_api.py:1033-1066 | A purge keeps every invariant |
| `Effects.PushAcceptedMeans` | backend/app/docker/push.py:185-201 | A push is accepted exactly when every child is linked here and every layer and config has its file and is held here, named by a manifest linked here, or named by one that an index linked here lists |
| `Effects.PushedMeans` | backend/app/docker/push.py:165-228 | An accepted push links and tags the manifest; the verdict of the push rules is on the links a scanned image has in local repositories, and every other link is as it was |
| `Effects.UploadedMeans` | backend/app/docker/push.py:68-127 | After an upload the repository answers for that blob, whose row is local, for nothing else new, and no other repository for anything new |
| `Effects.DeletedMeans` | backend/app/docker/push.py:231-251 | A deletion takes exactly the link of the manifest with that digest here and tags that name it here |
| `Effects.PurgedMeans` | backend/app/api/docker_api.py:1033-1066 | A purge leaves nothing of a cached repository and everything of every other one |
| `Effects.RepositoriesMean` | backend/app/docker/registry.py:121-183 | A new repository has an id not used before, is local exactly if it has no upstream, and has no flag set; setting flags changes nothing else |
| `Effects.RecordsMean` | backend/app/docker/registry.py:738-760 | A blob that has a row keeps it; a pull moves only the time of its link |
| `Push.PushThenDelete` | backend/app/docker/push.py:231-251 | Deleting a manifest pushed under a free tag restores the tags, the links and when each was last pulled |
| `Push.PushGrantsNothing` | backend/app/docker/push.py:165-228 | A push makes a repository answer for no blob it did not hold, beyond the manifests linked in it, exactly when it is refused or everything that rows stored for its bytes reach, directly or through a child, is already there |
| `Push.SameReadingGrantsNothing` | backend/app/docker/push.py:185-201 | It grants nothing when the row, if there is one, holds the references that were checked: for new bytes always |
| `Housekeeping.Gc` | backend/app/docker/housekeeping.py:187-252 | The row-by-row deletions give the collected tables; `freed_bytes` is the drop in total bytes |
| `Housekeeping.SelectDead` | backend/app/docker/housekeeping.py:177-208 | The query's set algebra selects exactly the dead manifests |
| `Housekeeping.SelectOrphans` | backend/app/docker/housekeeping.py:232-244 | The second query selects exactly the blob rows nothing names or holds |
| `Housekeeping.CollectionIsExact` | backend/app/docker/housekeeping.py:187-252 | A manifest stays exactly when it is linked, listed by a linked index, refers to a linked manifest, or is not an hour old; a blob row exactly when a surviving manifest lists it, a repository holds it, or it is not an hour old |
| `Housekeeping.CollectionTakesDependents` | backend/app/docker/housekeeping.py:220-227 | The findings, scans and jobs of collected manifests go and no others do |
| `Housekeeping.CollectionIsIdempotent` | backend/app/docker/housekeeping.py:187-252 | A second pass at the same clock removes nothing |
| `Housekeeping.CollectionKeepsTags` | backend/app/docker/housekeeping.py:223-227 | The collector's own deletion of tags never finds one |
| `Housekeeping.CollectionKeepsRepositories` | backend/app/docker/registry.py:628-661 | Collection leaves every repository able to serve exactly the blobs it could serve before, rows included |
| `Housekeeping.CollectedKeeps` | backend/app/docker/housekeeping.py:187-252 | Collection keeps every invariant: no row is left pointing at a deleted manifest |
| `Housekeeping.EvictTo` | backend/app/docker/housekeeping.py:389-437 | Unlinks a prefix of the candidates but for watched ones, and stops at the first point where the estimate reaches the target |
| `Housekeeping.EstimateGrows` | backend/app/docker/housekeeping.py:389-437 | The running estimate only grows, so it was below the target before every candidate looked at |
| `Housekeeping.EvictionIsSafe` | backend/app/docker/housekeeping.py:389-437 | Only links to fetched manifests in cached repositories that are not pinned are taken, no watched tag and no link one names; everything else stays as it was |
| `Housekeeping.EvictionTakesOldest` | backend/app/docker/housekeeping.py:389-437 | No link pulled more recently than an eligible one left behind is taken |
| `Housekeeping.MeasureUnique` | backend/app/docker/housekeeping.py:440-460 | What a link is estimated to free: the manifest and the upstream blobs only it names |
| `Housekeeping.UniqueBytesAreFreed` | backend/app/docker/housekeeping.py:440-460 | The estimate is exactly how much less the manifests and the cached blobs they name take up once the manifest is gone |
| `Housekeeping.OrphanFiles` | backend/app/docker/housekeeping.py:298-374 | Five hundred files to a transaction, each on the tables as they are by then: a file no table names is given a blob row if something wants it, with its size and rightly marked, and deleted otherwise |
| `Housekeeping.BatchesCover` | backend/app/docker/housekeeping.py:302-303 | Every file is in exactly one batch, and a batch is five hundred files or what is left |
| `Housekeeping.SweepIsSafe` | backend/app/docker/housekeeping.py:283-374 | No file a table names or a repository holds is deleted, every file looked at ends recorded or gone, and no row given back is one the collector would take |
| `Housekeeping.AdoptedIsLocal` | backend/app/docker/housekeeping.py:349-362 | A row given back is local exactly when the file is held or the manifests naming it were pushed, whenever those agree |
| `Reachable.NextKeeps` | backend/app/docker/registry.py:352-587 | Every one of the 23 steps keeps every invariant |
| `Reachable.RunKeeps` | backend/app/docker/scanning.py:67-505 | Every state of every run satisfies every invariant |
| `Reachable.TagsNeverDangle` | backend/app/docker/registry.py:419-445 | In every run each tag's manifest is linked in the tag's own repository, and collecting deletes no tag |
| `Reachable.UpstreamBytesOnly` | backend/app/docker/registry.py:352-401 | In every run, what an upstream repository links is bytes its own upstream has sent |
| `Reachable.FlagsFollowCatalogue` | backend/app/docker/scanning.py:650-666 | In every run, a finding's flag is catalogue membership and a scanned manifest's count its flagged findings |
| `Reachable.QueueIsCoherent` | backend/app/docker/scanning.py:67-181 | In every run, at most one active job per manifest, exactly one when it is shown as queued or scanning, none when unscanned or failed |
| `Reachable.PushCanGrant` | backend/app/docker/push.py:185-201 | A run in which bytes pulled as an image and pushed as an index make a repository answer for a blob uploaded to another one |
| `Serving.PullIsPlain` | backend/app/docker/policy.py:361-471 | A pull is refused exactly in quarantine, under a recorded push verdict, when the pull rules object to a finding of the image or of a stored child of the index, or when a scan is still owed; the order of the children does not matter |
| `Serving.PullsAreJudgedNow` | backend/app/docker/policy.py:361-471 | In every run, a pull of an image, an index or anything else is refused exactly when the rules in force object to the findings known now; a recorded verdict decides only for what is not scanned |
| `Serving.LocalPullsAreJudgedNow` | backend/app/docker/policy.py:411-471 | In every run, a scanned local image is refused exactly when in quarantine or when a finding is objectionable now, by the push or the pull rules |
| `Serving.SelectHeads` | backend/app/docker/registry.py:667-698 | The first fifty manifests naming the blob, or all if there are fewer, most recently served first, never served last, newer rows first among equals |
| `Serving.BlobPullVerdict` | backend/app/docker/registry.py:701-735 | Over those manifests, refused exactly in quarantine or when there are some and a pull of each would be refused |
| `Serving.LayersAreJudgedNow` | backend/app/docker/registry.py:667-735 | In every run, a layer named by at most fifty manifests here is refused exactly in quarantine, or when something here names it and everything that does is refused now; of one named by more, the first fifty decide |
| `Serving.SavingRejudges` | backend/app/api/docker_api.py:1121-1150 | Saving a tighter policy leaves every recorded push refusal a refusal |
| `Serving.TighteningOpensNoPull` | backend/app/api/docker_api.py:1121-1150 | In every run, saving a tighter policy opens no refused pull of an image, or of an index with the children stored for it |
| `Serving.TighteningOpensNoLayer` | backend/app/api/docker_api.py:1121-1150 | The same for layers |
| `ScanHistory.JobsRemember` | backend/app/docker/scanning.py:114-170 | Over every run, `attempts` is the number of claims, the worker of a running job its last claimer, its lease runs from when that worker was last heard of, and a job is handed back fewer than MAX_ATTEMPTS times |
| `ScanHistory.LeaseIsKept` | backend/app/docker/scanning.py:114-148 | In every run, a claim leaves a running job alone for exactly 120 seconds after its own claim or last accepted heartbeat; a later one puts it back in the queue or hands it out anew |
| `ScanHistory.AcceptedFromLastClaimer` | backend/app/api/docker_api.py:1384-1390 | Accepted exactly when the job is running and the request names no worker or the last claimer |
| `ScanHistory.NamedWorkerIsLastClaimer` | backend/app/api/docker_api.py:1384-1390 | Acceptance identifies the last claimer exactly when the request names a worker |
| `ScanHistory.UnnamedWorkerAccepted` | backend/app/api/docker_api.py:1384-1403 | A run in which a request without a name, a heartbeat say, is accepted for a job another worker is running |
| `Reports.FindingsAreLastReport` | backend/app/docker/scanning.py:339-439 | In every run an image's findings are its last accepted report, entry by entry, flagged by the catalogue of now; a scanned image has had one |
| `Reports.CatalogueIsLastFeed` | backend/app/docker/scanning.py:604-648 | In every run the catalogue is the CVE ids of the last feed that had any |
| `Reports.ReportsDecidePulls` | backend/app/docker/policy.py:411-471 | From report to verdict: in every run a scanned image is refused exactly in quarantine or when an entry of its last accepted report is objectionable, by the catalogue and the policy of now, to the pull rules or, in a local repository, to the push rules |
| `TagCache.NextIsSound` | backend/app/docker/registry.py:506-587 | Every step keeps what freshness rests on, however many revalidations overlap, unless it confirms over another digest |
| `TagCache.AnswersLeadTo` | backend/app/docker/registry.py:515-560 | The digest already held is confirmed, another one is followed, without a download only if it is reusable, one that is gone when fetched gives way to the tag itself; nothing but the commit writes the row |
| `TagCache.ConfirmingAnother` | backend/app/docker/registry.py:519-541 | A commit that confirms over another digest leaves the row fresh exactly when the upstream gave that digest too since the revalidation began |
| `TagCache.AnswersAreFresh` | backend/app/docker/registry.py:448-587 | In every run in which no confirming commit meets another digest, overlapping or not, every answer that is not marked stale names a digest given during the revalidation that last set `checked_at`; a hit comes within the TTL; stale only after an upstream failure |
| `TagCache.HitsAreRecent` | backend/app/docker/registry.py:412-416 | In those runs a hit names a digest given less than the TTL and one revalidation ago |
| `TagCache.GuardedRunsAgree` | backend/app/docker/registry.py:466-473 | Under the herd guard no confirming commit meets another digest |
| `TagCache.OverlapIsNotFresh` | backend/app/docker/registry.py:466-473 | A run in which two revalidations overlap and the row ends up naming a digest the upstream did not give during the one that set `checked_at` |
| `HerdGuard.NextIsSound` | backend/app/core/cache.py:249-317 | Every step of every guard keeps the map, the counts and the locks sound |
| `HerdGuard.OneHolderPerKey` | backend/app/core/cache.py:272-317 | At most one guard per key holds the local lock, under every interleaving, wake-ups and cancellations included |
| `HerdGuard.UsersAreCounted` | backend/app/core/cache.py:249-270 | A key has an entry exactly while guards are registered on it; they share it and it counts them |
| `HerdGuard.NoWakeUpIsLost` | backend/app/core/cache.py:272-281 | While a key's lock is free and guards wait for it, one of them has a step to take |
| `HerdGuard.HoldersHold` | backend/app/core/cache.py:307-317 | Leaving never releases a lock that is not held |
| `HerdGuard.HandoverIsReached` | backend/app/core/cache.py:259-270 | The state that example starts from, one holder and one waiter, is reached by two guards entering |
| `HerdGuard.DroppingFreeLocksIsUnsound` | backend/app/core/cache.py:259-270 | The rule the comment rejects, dropping an entry whose lock is free, gives one key two holders |
| `HerdGuard.Process.Enter` | backend/app/core/cache.py:249-281 | Entering takes a free lock, queues on a taken one, or is refused without waiting |
| `HerdGuard.Process.LeaveLocal` | backend/app/core/cache.py:259-270 | The entry loses a user and leaves the map at none |
| `HerdGuard.Process.Exit` | backend/app/core/cache.py:307-317 | The holder releases the lock, which wakes the first waiter, and leaves |
| `HerdGuard.ReleasedMeans` | backend/app/core/cache.py:307-317 | A release frees the lock and wakes the first waiter if it sleeps; no other waiter is touched and none that was cancelled is woken |
| `Lease.RenewedHolderExcludes` | backend/app/core/cache.py:320-386 | While renewals come with gaps under the TTL the holder keeps the key, every renewal says so and every other acquire the cache answers is refused |
| `Lease.ConfirmedIsSecure` | backend/app/core/cache.py:341-355 | An acquire the cache answers succeeds exactly when nobody's entry is live, and then the holder is covered by the exclusion above |
| `Lease.OneSecureHolder` | backend/app/core/cache.py:320-386 | Two holders that are both renewed in time are the same |
| `Lease.LateHolderLoses` | backend/app/core/cache.py:357-373 | The key is free exactly when a whole TTL passed; then the next acquire gets it and the late holder is told |
| `Lease.ForeignTokenChangesNothing` | backend/app/core/cache.py:209-220 | Renewing or releasing with a token that is not the stored one changes nothing |
| `Lease.DeadHolderLapses` | backend/app/core/cache.py:320-386 | In every run, a dead holder's key is free or someone else's within one TTL |
| `Lease.UnansweredIsHeld` | backend/app/core/cache.py:341-355 | Without an answer from the cache an acquire succeeds but is not confirmed |
| `Lease.ReleaseFrees` | backend/app/core/cache.py:375-386 | A release the cache hears of frees the confirmed holder's key, one it does not hear of leaves the entry to lapse; the lease is no longer held either way |
| `Lease.Holder.Acquire` | backend/app/core/cache.py:341-355 | Sets the entry if absent; without an answer the lease counts as held but not as confirmed |
| `Lease.Holder.Renew` | backend/app/core/cache.py:357-366 | Extends exactly its own live entry and says whether it still is |
| `Lease.Holder.Release` | backend/app/core/cache.py:375-386 | Deletes exactly its own live entry and forgets the lease |
| `LoginLimiter.BucketsDiffer` | backend/app/core/deps.py:310-328 | The three buckets of one attempt are different counters for every name and address |
| `LoginLimiter.BucketsMeet` | backend/app/core/deps.py:310-328 | For every two attempts and every two of their buckets, exactly when those are one counter |
| `LoginLimiter.MeetingNeedsTheMarker` | backend/app/core/deps.py:310-328 | An attempt's account counter is some account's per-address counter exactly when its username, as far as it is read, contains `:ip:` |
| `LoginLimiter.FailuresLetThrough` | backend/app/core/deps.py:329-355 | From empty counters one source may fail `perMinute` times in a window and no more |
| `LoginLimiter.GuessesFromElsewhere` | backend/app/core/deps.py:313-328 | Wrong guesses from one other address shut an owner out exactly when all that were let through fall in the same window and are counted in the bucket of his account and address |
| `LoginLimiter.PlainNamesShutNobodyOut` | backend/app/core/deps.py:313-328 | With addresses without a `p`, a username without `:ip:` shuts nobody out from elsewhere |
| `LoginLimiter.OwnerShutOut` | backend/app/core/deps.py:313-328 | The concrete case: `perMinute` guesses for `x:ip:a` from b are let through and shut x out at a |
| `LoginLimiter.Counters.RateLimit` | backend/app/core/cache.py:428-464 | Counts a hit and allows it exactly when the counter was below the limit; a limit that is not positive counts nothing |
| `LoginLimiter.Counters.Begin` | backend/app/core/deps.py:329-355 | On its own, an attempt is let through exactly when all three buckets are under their limits, and then counts once in each; refused, it changes no counter |
| `LoginLimiter.Counters.Forgive` | backend/app/core/deps.py:358-361 | Undoes exactly what a successful begin counted |
| `LoginLimiter.NoLimitNoCount` | backend/app/core/cache.py:428-440 | A setting that is not positive switches the limiter off: everything passes and nothing is counted |
| `LoginLimiter.RunIsSound` | backend/app/core/deps.py:329-361 | Every state of every run has counters and limits in agreement |
| `LoginLimiter.NextIsSound` | backend/app/core/deps.py:329-361 | Every INCR and DECR of every interleaving keeps the counters and limits in agreement |
| `LoginLimiter.CounterIsTakenMinusRefunded` | backend/app/core/cache.py:428-490 | Per bucket and window, the counter is hits taken minus hits given back |
| `LoginLimiter.AtMostLimitLetThrough` | backend/app/core/deps.py:329-361 | At most `limit` attempts are let through and unforgiven at once, those cut off later included, whatever else shares the counter |
| `LoginLimiter.GuessesAreCapped` | backend/app/core/deps.py:310-361 | Whatever interleaves, in one minute at most `perMinute` guesses from an address, as many at an account from an address, and ten times as many at an account from anywhere are let through and stand |
| `LoginLimiter.RefusedNetsZero` | backend/app/core/deps.py:343-354 | A refused attempt, and a forgiven one, counts in no bucket |
| `LoginLimiter.CountersAreHolders` | backend/app/core/deps.py:329-361 | In every state of every run a counter is the number of attempts that hold a hit in its bucket, once each |
| `LoginLimiter.QuietCountersAreFailures` | backend/app/core/deps.py:329-361 | With nothing in flight the counter is exactly the number of attempts that failed or were cut off while counted there |
| `OsvRefresh.EveryItemOnce` | backend/app/main.py:264-297 | Whatever the scanner does, every item is dealt with once, in order, in at most 2n - 1 calls |
| `OsvRefresh.ExactlyPoisonSkipped` | backend/app/main.py:264-297 | With a scanner that fails exactly on poisonous items, those are skipped and every other item fares as if they were absent |
| `OsvRefresh.FewPoisonFewCalls` | backend/app/main.py:264-297 | With p poisonous items among n, at most 1 + 2ph calls, h being how often n can be halved |
| `OsvRefresh.Pass.ScanGroup` | backend/app/main.py:264-297 | The recursion over halves writes `scanned_at` and returns the unanswered items as specified |
| `OsvRefresh.Pass.ScanBatch` | backend/app/main.py:239-244 | A batch refreshes exactly its answered versions, whichever ecosystems they are of |
| `OsvRefresh.GroupRows` | backend/app/main.py:239-241 | Each ecosystem once, with its rows in the order they came |
| `OsvRefresh.Pass.SelectBatch` | backend/app/main.py:210-234 | The head of the backlog: never scanned first, then oldest, none of the deferred |
| `OsvRefresh.Pass.Refresh` | backend/app/main.py:171-261 | The pass ends without its deadline, selects each version at most once and only stale ones, refreshes exactly the answered ones, and when it ends cleared has selected them all |
| `Requirements.Audit.Read` | cli/minireg.py:1105-1143 | Terminates on any include graph; every include of a file it read is read, audited on its own, or counted under another root |
| `Requirements.Audit.Follow` | cli/minireg.py:1121-1143 | The three fates of an include line, claims kept |
| `Requirements.Audit.ParseRequirements` | cli/minireg.py:1078-1164 | One root reads exactly the files it owns and lists exactly their pins, once each |
| `Requirements.Audit.Discover` | cli/minireg.py:1247-1287 | Over all roots, a file is read exactly when some root can reach it, and under exactly one root |
| `Requirements.EveryFileOnce` | cli/minireg.py:1247-1287 | The claims left behind give each reachable file exactly one reader |
| `Requirements.EveryPinAudited` | cli/minireg.py:1149-1155 | A pin is listed exactly when some reachable file has it |
| `ImageNames.ComponentMeans` | backend/app/docker/naming.py:28 | The reader of components accepts exactly what the regular expression matches: words of lower-case letters and digits, joined by `.`, `_`, `__` or dashes |
| `ImageNames.NamesMean` | backend/app/docker/naming.py:54-57 | A valid name is up to 255 characters of components joined by slashes |
| `ImageNames.ReferencesMean` | backend/app/docker/naming.py:30-51 | Tags and digests are those of the regular expressions, the whole string matched |
| `ImageNames.RouteMeans` | backend/app/docker/naming.py:228-282 | Where every name goes, by its first segment and what follows it; a disabled upstream's prefix goes nowhere rather than to Docker Hub |
| `ImageNames.CanonicalIsStable` | backend/app/docker/naming.py:228-282 | Routing a canonical name returns its target, however the name first came in |
| `ImageNames.RouteAgain` | backend/app/docker/naming.py:253-282 | Routing twice the same way gives the same target exactly when it is not the mirror host |
| `ImageNames.CanonicalIsInjective` | backend/app/docker/naming.py:228-282 | Distinct targets never share a canonical name |
| `ImageNames.EscapeHatch` | backend/app/docker/naming.py:259-282 | A name alone means the same image as with `dockerhub/` in front exactly when its first segment is not captured |
| `ImageNames.HubSpellingsMeet` | backend/app/docker/naming.py:206-282 | All spellings of an official image meet at one target |
| `ImageNames.RoutedNameIsShaped` | backend/app/docker/registry.py:97-118 | The canonical name of a valid name is valid exactly when it is not too long and the upstream in front of it is named by a component |
| `ImageNames.ParsePrint` | backend/app/docker/naming.py:295-321 | Printing an endpoint and parsing it returns it, also for names made of `blobs`, `uploads` and `manifests` |
| `ImageNames.PrintParse` | backend/app/docker/naming.py:295-321 | Every path that parses is the one its endpoint prints to, but for the optional slash |
| `ImageNames.PrintableIsExact` | backend/app/docker/naming.py:295-321 | The round trip holds for exactly the printable endpoints |
| `ImageNames.ServedParses` | backend/app/docker/naming.py:30-57 | It holds for every valid name with every tag, digest and session the registry accepts |

## Left out

* Range strings at the level of characters: ranges are read as terms. Digits other than
  ASCII ones in version strings are not modelled, nor is `include_prerelease=True`.
* HTTP handlers, SQL text, JSON, sessions of the ORM and concurrency inside one
  transaction: each transaction is one step, and ids are never used twice.
* The bytes in the store: a digest stands for its bytes, and file-level safety when one
  digest plays two roles (blob, manifest, SBOM, report) is not claimed.
* SBOMs, scan reports as files, and what `parse_report` filters: a report arrives parsed.
* The policy's caches, and the moment in `put_policy` between its two commits: a save is
  one step, and loading reads the current value.
* Upstreams being deleted, the negative cache and the circuit breaker.
* The lists of ids inside a deny verdict's text, and upper-casing of accepted and denied ids.
* Collection deeper than one index level, and eviction actually reaching its budget: its
  byte figure is an estimate, and the target is a parameter.
* The Redis half of `herd_guard`, which proceeds after one TTL, and a guard cancelled while
  it reconnects: such a guard is a holder that never takes another step.
* The limiter's local fallback, and the expiry of its counters after two windows.
* OSV's own client, `apply_to_version` and the order of equally old versions.
* Directories in which two names resolve to one file, the spelling under which a pin is
  reported, pip-compile headers, and the lock files of other ecosystems.
* `/v2` paths that contain a newline.
* OIDC, sessions, password hashing, tokens and CLI output.
- SemVerRange.RangeFidelity: is stated for the default mode and on terms, not on range strings.
- HerdGuard.OneHolderPerKey: is about the local lock of one process.
