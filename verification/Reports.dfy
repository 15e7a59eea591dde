/**
 Verdicts and the reports they rest on: what a scanned image's stored findings say is
 what its last accepted report said, read with the catalogue in force.
 */
module Reports {
  import opened Common
  import opened Gate
  import opened Tables
  import opened Registry
  import opened Scanning
  import opened Push
  import opened Housekeeping
  import opened Reachable
  import opened Serving
  import opened Effects
  import ScanHistory

  /** The step is an accepted report on this image. */
  ghost predicate ReportsOn(db: Db, step: Step, m: ManifestId) {
    && step.Report? && step.report.Some? && RunningFor(db.jobs, step.job, step.worker)
    && db.jobs[step.job].manifest == m && m in db.manifests
  }

  ghost function LastReport(policy: Policy, steps: seq<Step>, m: ManifestId): Option<seq<Parsed>> {
    if steps == [] then None
    else
      var init := steps[..|steps| - 1];
      var step := steps[|steps| - 1];
      if ReportsOn(Run(policy, init), step, m) then step.report else LastReport(policy, init, m)
  }

  // ---------------------------------------------------------------------
  // What a step does to the findings
  // ---------------------------------------------------------------------

  /** The findings of the images that are left are as they were, and no image is newly
      shown as scanned. */
  ghost predicate FindingsKept(db: Db, after: Db) {
    && after.kev == db.kev
    && (forall m | m in after.findings :: m in db.findings && after.findings[m] == db.findings[m])
    && (forall m | m in after.manifests :: m in db.findings ==> m in after.findings)
    && (forall m | m in after.manifests :: m in db.manifests || m >= db.nextId)
    && (forall m | m in after.manifests && after.manifests[m].status == Scanned ::
          m in db.manifests && db.manifests[m].status == Scanned)
  }

  lemma StoredKeepsFindings(db: Db, body: Body, upstream: Option<UpstreamId>, parent: Option<Ref>, now: Time, after: Db, m: ManifestId)
    requires RowsSound(db) && (after, m) == Stored(db, body, upstream, parent, now)
    ensures FindingsKept(db, after)
  {
    StoredMeans(db, body, upstream, parent, now, after, m);
  }

  lemma SameRowsKeepFindings(db: Db, mid: Db, after: Db)
    requires FindingsKept(db, mid)
    requires after.kev == mid.kev && after.findings == mid.findings && after.manifests == mid.manifests
    ensures FindingsKept(db, after)
  {
  }

  lemma FetchedKeepsFindings(db: Db, repo: RepoId, body: Body, parent: Option<Ref>, now: Time, after: Db)
    requires RowsSound(db) && IsUpstreamRepo(db, repo) && after == Fetched(db, repo, body, parent, now).0
    ensures FindingsKept(db, after)
  {
    var upstream := db.repos[repo].upstream;
    var sent := Sent(db, upstream.value, body.digest);
    var (stored, m) := Stored(sent, body, upstream, parent, now);
    assert RowsSound(sent) && sent == db.(served := sent.served);
    StoredKeepsFindings(sent, body, upstream, parent, now, stored, m);
    LinkedMeans(stored, repo, m, now, after);
  }

  lemma RevalidatedKeepsFindings(db: Db, repo: RepoId, tag: Tag, outcome: TagOutcome, now: Time, after: Db)
    requires RowsSound(db) && IsUpstreamRepo(db, repo) && after == Revalidated(db, repo, tag, outcome, now)
    ensures FindingsKept(db, after)
  {
    match outcome
    case Confirmed =>
      if (repo, tag) !in db.tags {
        assert after == db;
      }
    case Moved(d) =>
      var known := RowOf(db.manifests, d);
      if known.Some? && Reusable(db.repos, db.links, repo, known.value) {
        LinkedMeans(db, repo, known.value, now, Linked(db, repo, known.value, now));
      } else {
        assert after == db;
      }
    case Refetched(body, parent) =>
      var fetched := Fetched(db, repo, body, parent, now).0;
      FetchedKeepsFindings(db, repo, body, parent, now, fetched);
      SameRowsKeepFindings(db, fetched, after);
    case Gone =>
  }

  lemma PushedKeepsFindings(
    db: Db, repo: RepoId, tag: Option<Tag>, body: Body, files: set<Digest>, parent: Option<Ref>, now: Time, after: Db)
    requires RowsSound(db) && after == Pushed(db, repo, tag, body, files, parent, now).0
    ensures FindingsKept(db, after)
  {
    if AllPresent(db, repo, files, body.refs) {
      var (stored, m) := Stored(db, body, None, parent, now);
      StoredKeepsFindings(db, body, None, parent, now, stored, m);
      var linked := Linked(stored, repo, m, now);
      LinkedMeans(stored, repo, m, now, linked);
      AppliedKeepsLinks(linked, m);
      SameRowsKeepFindings(db, stored, after);
    } else {
      assert after == db;
    }
  }

  lemma ContentStepKeepsFindings(db: Db, step: Step, after: Db)
    requires RowsSound(db) && Enabled(db, step) && (step.PullDigest? || step.PullTag? || step.PushManifest?) && after == Next(db, step)
    ensures FindingsKept(db, after)
  {
    match step
    case PullDigest(repo, body, parent, now) => FetchedKeepsFindings(db, repo, body, parent, now, after);
    case PullTag(repo, tag, outcome, now) => RevalidatedKeepsFindings(db, repo, tag, outcome, now, after);
    case PushManifest(repo, tagged, body, files, parent, now) =>
      PushedKeepsFindings(db, repo, tagged, body, files, parent, now, after);
  }

  lemma RowStepKeepsFindings(db: Db, step: Step, after: Db)
    requires Enabled(db, step) && after == Next(db, step)
    requires step.CreateRepo? || step.SetFlags? || step.UploadBlob? || step.RecordBlob? || step.RemoveManifest?
             || step.RemoveTag? || step.RemoveBlob? || step.Touch? || step.Purge? || step.Evict? || step.SavePolicy? || step.PruneJobs?
    ensures FindingsKept(db, after)
  {
    if step.CreateRepo? || step.SetFlags? || step.Touch? || step.Purge? || step.Evict? || step.SavePolicy? {
      RepoStepKeepsRows(db, step, after);
    } else {
      BlobStepKeepsRows(db, step, after);
    }
    SameRowsKeepFindings(db, db, after);
  }

  lemma RepoStepKeepsRows(db: Db, step: Step, after: Db)
    requires Enabled(db, step) && after == Next(db, step)
    requires step.CreateRepo? || step.SetFlags? || step.Touch? || step.Purge? || step.Evict? || step.SavePolicy?
    ensures after.kev == db.kev && after.findings == db.findings && after.manifests == db.manifests
  {
  }

  lemma BlobStepKeepsRows(db: Db, step: Step, after: Db)
    requires Enabled(db, step) && after == Next(db, step)
    requires step.UploadBlob? || step.RecordBlob? || step.RemoveManifest? || step.RemoveTag? || step.RemoveBlob? || step.PruneJobs?
    ensures after.kev == db.kev && after.findings == db.findings && after.manifests == db.manifests
  {
  }

  lemma CollectKeepsFindings(db: Db, now: Time, after: Db)
    requires after == Collected(db, now)
    ensures FindingsKept(db, after)
  {
  }

  lemma StatusKeepsFindings(db: Db, m: ManifestId, status: ScanStatus, after: Db)
    requires status != Scanned && after.manifests == WithStatus(db.manifests, m, status)
    requires after.findings == db.findings && after.kev == db.kev
    ensures FindingsKept(db, after)
  {
  }

  lemma RequestKeepsFindings(db: Db, step: Step, after: Db)
    requires (step.RequestScan? || step.Rescan?) && after == Next(db, step)
    ensures FindingsKept(db, after)
  {
    if step.RequestScan? {
      EnqueuedMeans(db, step.manifest, step.priority, after);
    } else {
      RescannedMeans(db, step.manifest, step.priority, after);
    }
  }

  lemma ClaimKeepsFindings(db: Db, worker: string, now: Time, after: Db)
    requires after == Claimed(db, worker, now)
    ensures FindingsKept(db, after)
  {
    ClaimedMeans(db, worker, now, after);
    if db.policy.scanningEnabled && exists j :: j in db.jobs && Free(db.jobs[j], now) {
      var j :| HandsOut(db, after, j, worker, now);
      var m := db.jobs[j].manifest;
      StatusKeepsFindings(db, m, if ScannedBy(db, m) then Scanning else NotApplicable, after);
    }
  }

  lemma FailKeepsFindings(db: Db, j: JobId, retry: bool, after: Db)
    requires j in db.jobs && after == FailedJob(db, j, retry)
    ensures FindingsKept(db, after)
  {
    FailedMeans(db, j, retry, after);
  }

  /** Every step but an accepted report and a catalogue refresh keeps the findings. */
  lemma StepKeepsFindings(db: Db, step: Step, after: Db)
    requires RowsSound(db) && Enabled(db, step) && after == Next(db, step)
    requires !step.RefreshKev? && forall m :: !ReportsOn(db, step, m)
    ensures FindingsKept(db, after)
  {
    if step.PullDigest? || step.PullTag? || step.PushManifest? {
      ContentStepKeepsFindings(db, step, after);
    } else if step.Collect? {
      CollectKeepsFindings(db, step.now, after);
    } else if step.RequestScan? || step.Rescan? {
      RequestKeepsFindings(db, step, after);
    } else if step.ClaimJob? {
      ClaimKeepsFindings(db, step.worker, step.now, after);
    } else if step.Heartbeat? {
      RenewedMeans(db, step.job, step.worker, step.now, after);
    } else if step.Report? || step.ReportFailure? {
      AttemptKeepsFindings(db, step, after);
    } else {
      RowStepKeepsFindings(db, step, after);
    }
  }

  lemma AttemptKeepsFindings(db: Db, step: Step, after: Db)
    requires (step.Report? || step.ReportFailure?) && after == Next(db, step)
    requires forall m :: !ReportsOn(db, step, m)
    ensures FindingsKept(db, after)
  {
    if !RunningFor(db.jobs, step.job, step.worker) {
      assert after == db;
    } else if step.Report? {
      assert !ReportsOn(db, step, db.jobs[step.job].manifest);
      RejectedMeans(db, step.job, step.worker, step.report, after);
      FailKeepsFindings(db, step.job, true, after);
    } else {
      FailKeepsFindings(db, step.job, !step.permanent, after);
    }
  }

  // ---------------------------------------------------------------------
  // Over whole runs
  // ---------------------------------------------------------------------

  /** The findings stored of an image are those of this report. */
  ghost predicate RowReads(db: Db, m: ManifestId, report: Option<seq<Parsed>>) {
    && (report.Some? ==> m < db.nextId)
    && (m in db.manifests && db.manifests[m].status == Scanned ==> report.Some?)
    && (m in db.manifests && report.Some? ==> m in db.findings)
    && (m in db.findings ==> report.Some? && StoresReport(report.value, db.kev, db.findings[m]))
  }

  lemma KeptReads(db: Db, after: Db, m: ManifestId, report: Option<seq<Parsed>>)
    requires RowReads(db, m, report) && FindingsKept(db, after) && after.nextId >= db.nextId
    ensures RowReads(after, m, report)
  {
  }

  lemma RefreshReads(db: Db, ids: set<string>, after: Db, m: ManifestId, report: Option<seq<Parsed>>)
    requires RowReads(db, m, report) && after == KevRefreshed(db, ids) && after.nextId >= db.nextId
    ensures RowReads(after, m, report)
  {
    KevRefreshedMeans(db, ids, after);
    if v :| v in ids && "CVE-" <= v {
      if m in db.findings {
        assert SameFindings(db.findings[m], after.kev, after.findings[m]);
        forall i | 0 <= i < |report.value| ensures StoredAs(report.value[i], after.kev, after.findings[m][i]) {
          assert StoredAs(report.value[i], db.kev, db.findings[m][i]);
        }
      }
    } else {
      assert after == db;
    }
  }

  lemma ReportReads(db: Db, step: Step, after: Db, x: ManifestId, m: ManifestId, report: Option<seq<Parsed>>)
    requires RowReads(db, m, report) && ReportsOn(db, step, x) && after == Next(db, step) && after.nextId >= db.nextId
    requires x < db.nextId
    ensures RowReads(after, m, if m == x then step.report else report)
  {
    ReportedMeans(db, step.job, step.worker, step.report.value, after);
  }

  lemma StepReads(db: Db, step: Step, after: Db, m: ManifestId, report: Option<seq<Parsed>>)
    requires RowsSound(db) && Enabled(db, step) && after == Next(db, step) && RowReads(db, m, report)
    ensures RowReads(after, m, if ReportsOn(db, step, m) then step.report else report)
  {
    ScanHistory.StepEffect(db, step, after, 0);
    if step.RefreshKev? {
      RefreshReads(db, step.ids, after, m, report);
    } else if x :| ReportsOn(db, step, x) {
      ReportReads(db, step, after, x, m, report);
    } else {
      StepKeepsFindings(db, step, after);
      KeptReads(db, after, m, report);
    }
  }

  /** In every run the findings stored of an image are its last accepted report, entry
      by entry, flagged by the catalogue of now; and a scanned image has had one. */
  lemma {:induction false} FindingsAreLastReport(policy: Policy, steps: seq<Step>, m: ManifestId)
    ensures RowReads(Run(policy, steps), m, LastReport(policy, steps, m))
  {
    if steps != [] {
      var init := steps[..|steps| - 1];
      var db := Run(policy, init);
      FindingsAreLastReport(policy, init, m);
      RunKeeps(policy, init);
      if Enabled(db, steps[|steps| - 1]) {
        StepReads(db, steps[|steps| - 1], Run(policy, steps), m, LastReport(policy, init, m));
      }
    }
  }

  ghost predicate FeedsCves(step: Step) { step.RefreshKev? && exists v :: v in step.ids && "CVE-" <= v }

  /** The last catalogue feed that had a CVE id in it. */
  ghost function LastFeed(steps: seq<Step>): set<string> {
    if steps == [] then {}
    else if FeedsCves(steps[|steps| - 1]) then steps[|steps| - 1].ids
    else LastFeed(steps[..|steps| - 1])
  }

  /** In every run the catalogue is the CVE ids of that feed. */
  lemma {:induction false} CatalogueIsLastFeed(policy: Policy, steps: seq<Step>)
    ensures forall v :: v in Run(policy, steps).kev <==> v in LastFeed(steps) && "CVE-" <= v
  {
    if steps != [] {
      var init, step := steps[..|steps| - 1], steps[|steps| - 1];
      CatalogueIsLastFeed(policy, init);
      RunKeeps(policy, init);
      if Enabled(Run(policy, init), step) {
        StepKeepsCatalogue(Run(policy, init), step, Run(policy, steps));
      }
    }
  }

  lemma StepKeepsCatalogue(db: Db, step: Step, after: Db)
    requires RowsSound(db) && Enabled(db, step) && after == Next(db, step)
    ensures FeedsCves(step) ==> forall v :: v in after.kev <==> v in step.ids && "CVE-" <= v
    ensures !FeedsCves(step) ==> after.kev == db.kev
  {
    if step.RefreshKev? {
      RefreshSetsCatalogue(db, step.ids, after);
    } else if x :| ReportsOn(db, step, x) {
      ReportKeepsCatalogue(db, step, x, after);
    } else {
      StepKeepsFindings(db, step, after);
    }
  }

  lemma RefreshSetsCatalogue(db: Db, ids: set<string>, after: Db)
    requires after == KevRefreshed(db, ids)
    ensures if exists v :: v in ids && "CVE-" <= v then forall v :: v in after.kev <==> v in ids && "CVE-" <= v
            else after.kev == db.kev
  {
    KevRefreshedMeans(db, ids, after);
  }

  lemma ReportKeepsCatalogue(db: Db, step: Step, x: ManifestId, after: Db)
    requires ReportsOn(db, step, x) && after == Next(db, step)
    ensures after.kev == db.kev
  {
    ReportedMeans(db, step.job, step.worker, step.report.value, after);
  }

  /** The rules object to an entry of the report, with this catalogue. */
  predicate EntryObjectionable(p: Parsed, kev: set<string>, policy: Policy, rules: Rules) {
    Objectionable(Finding(p.vuln, p.severity, p.fixed, p.vuln in kev), policy, rules)
  }

  lemma ReportObjects(report: seq<Parsed>, kev: set<string>, findings: seq<Finding>, policy: Policy, rules: Rules)
    requires StoresReport(report, kev, findings)
    ensures (exists f :: f in findings && Objectionable(f, policy, rules)) <==>
            exists p :: p in report && EntryObjectionable(p, kev, policy, rules)
  {
    if f :| f in findings && Objectionable(f, policy, rules) {
      var i :| 0 <= i < |findings| && findings[i] == f;
      assert StoredAs(report[i], kev, findings[i]) && report[i] in report;
      assert EntryObjectionable(report[i], kev, policy, rules);
    }
    if p :| p in report && EntryObjectionable(p, kev, policy, rules) {
      var i :| 0 <= i < |report| && report[i] == p;
      assert StoredAs(report[i], kev, findings[i]) && findings[i] in findings;
    }
  }

  /** From report to verdict: in every run a scanned image is refused exactly in
      quarantine or when an entry of its last accepted report, with the catalogue and
      the policy of now, is objectionable to the pull rules or, where it was pushed to,
      to the push rules. */
  lemma ReportsDecidePulls(policy: Policy, steps: seq<Step>, repo: RepoId, m: ManifestId)
    requires var db := Run(policy, steps); (repo, m) in db.links && Judged(db.manifests, m)
    ensures LastReport(policy, steps, m).Some?
    ensures var db, report := Run(policy, steps), LastReport(policy, steps, m).value;
            && repo in db.repos
            && (PullAt(db, repo, m, []).Refused? <==>
                  db.repos[repo].quarantined
                  || (exists p :: p in report && EntryObjectionable(p, db.kev, db.policy, db.policy.pull))
                  || (db.repos[repo].isLocal && exists p :: p in report && EntryObjectionable(p, db.kev, db.policy, db.policy.push)))
  {
    var db := Run(policy, steps);
    RunKeeps(policy, steps);
    FindingsAreLastReport(policy, steps, m);
    var report := LastReport(policy, steps, m).value;
    ReportObjects(report, db.kev, db.findings[m], db.policy, db.policy.pull);
    ReportObjects(report, db.kev, db.findings[m], db.policy, db.policy.push);
    ScannedImageIsNow(db, repo, m);
  }

  lemma ScannedImageIsNow(db: Db, repo: RepoId, m: ManifestId)
    requires Inv(db) && (repo, m) in db.links && Judged(db.manifests, m) && m in db.findings
    ensures repo in db.repos
    ensures PullAt(db, repo, m, []).Refused? <==>
              db.repos[repo].quarantined
              || (exists f :: f in db.findings[m] && Objectionable(f, db.policy, db.policy.pull))
              || (db.repos[repo].isLocal && exists f :: f in db.findings[m] && Objectionable(f, db.policy, db.policy.push))
  {
    BlockedIsNow(db, repo, m);
    RulesVerdictIsPlain(FindingsOf(db.findings, m), db.policy, db.policy.pull);
  }
}
