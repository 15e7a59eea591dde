/**
 The tag rows of the tables and the row of the freshness model are one: what a
 revalidation commits there is what it commits here, and no other transaction makes a
 tag of an upstream repository name anything else.
 */
module TagRows {
  import opened Common
  import opened Tables
  import opened Gate
  import opened Registry
  import opened Scanning
  import opened Push
  import opened Housekeeping
  import opened Effects
  import Reachable
  import TagCache

  /** The model's row shows this tag: the digest it names and when it was checked. */
  ghost predicate Shows(row: Option<TagCache.Row>, db: Db, k: (RepoId, Tag)) {
    (row.Some? <==> k in db.tags) && (row.Some? ==> TagNames(db, k, row.value.digest, row.value.checkedAt))
  }

  /** The way a revalidation ends in the tables that a commit of the model stands for:
      a confirmation, a move to a digest that needs no download, or fetched bytes. */
  ghost predicate StandsFor(phase: TagCache.Phase, db: Db, repo: RepoId, outcome: TagOutcome)
    requires IsUpstreamRepo(db, repo)
  {
    phase.Settling? &&
    match outcome
    case Confirmed => phase.confirmed
    case Moved(d) => !phase.confirmed && phase.digest == d && HeldFrom(db, repo, d)
    case Refetched(body, _) => !phase.confirmed && phase.digest == body.digest
    case Gone => false
  }

  /** A commit of the model and of the tables leave the same row, whoever else wrote it
      since the revalidation began. */
  lemma CommitsAlike(
    s: TagCache.State, id: TagCache.FlightId, ttl: nat, db: Db, repo: RepoId, tag: Tag, outcome: TagOutcome, after: Db)
    requires RowsSound(db) && IsUpstreamRepo(db, repo) && Shows(s.row, db, (repo, tag))
    requires TagCache.Enabled(s, TagCache.Settle(id), ttl) && StandsFor(s.flights[id].phase, db, repo, outcome)
    requires after == Revalidated(db, repo, tag, outcome, s.now)
    ensures Shows(TagCache.Next(s, TagCache.Settle(id), ttl).row, after, (repo, tag))
  {
    RevalidatedMeans(db, repo, tag, outcome, s.now, after);
  }

  /** So does a tag the upstream no longer has. */
  lemma MissingAlike(s: TagCache.State, id: TagCache.FlightId, ttl: nat, db: Db, repo: RepoId, tag: Tag, after: Db)
    requires RowsSound(db) && IsUpstreamRepo(db, repo)
    requires TagCache.Enabled(s, TagCache.Missing(id), ttl) && after == Revalidated(db, repo, tag, Gone, s.now)
    ensures Shows(TagCache.Next(s, TagCache.Missing(id), ttl).row, after, (repo, tag))
  {
    RevalidatedMeans(db, repo, tag, Gone, s.now, after);
  }

  // ---------------------------------------------------------------------
  // Every other transaction leaves the tag or drops it
  // ---------------------------------------------------------------------

  /** The tag is gone, or names the bytes it named and was checked when it was. */
  ghost predicate StaysOrGoes(db: Db, after: Db, k: (RepoId, Tag)) {
    k in after.tags ==>
      && k in db.tags && after.tags[k] == db.tags[k]
      && (db.tags[k].manifest in db.manifests ==>
            db.tags[k].manifest in after.manifests
            && after.manifests[db.tags[k].manifest].digest == db.manifests[db.tags[k].manifest].digest)
  }

  lemma ContentStays(db: Db, step: Reachable.Step, after: Db, k: (RepoId, Tag))
    requires RowsSound(db) && Reachable.Enabled(db, step) && after == Reachable.Next(db, step)
    requires step.PullDigest? || (step.PullTag? && (step.repo, step.tag) != k) || (step.PushManifest? && step.repo != k.0)
    ensures StaysOrGoes(db, after, k)
  {
    match step
    case PullDigest(repo, body, parent, now) =>
      var (fetched, m) := Fetched(db, repo, body, parent, now);
      FetchedMeans(db, repo, body, parent, now, fetched, m);
    case PullTag(repo, tag, outcome, now) => RevalidatedMeans(db, repo, tag, outcome, now, after);
    case PushManifest(repo, tagged, body, files, parent, now) =>
      var (pushed, m) := Pushed(db, repo, tagged, body, files, parent, now);
      if m.Some? {
        PushedMeans(db, repo, tagged, body, files, parent, now, pushed, m.value);
      } else {
        PushAcceptedMeans(db, repo, tagged, body, files, parent, now);
      }
  }

  ghost predicate SameTagsAndDigests(db: Db, after: Db) {
    && after.tags == db.tags && after.manifests.Keys == db.manifests.Keys
    && forall m | m in db.manifests :: after.manifests[m].digest == db.manifests[m].digest
  }

  lemma QueueStays(db: Db, step: Reachable.Step, after: Db)
    requires Reachable.Enabled(db, step) && after == Reachable.Next(db, step)
    requires step.RequestScan? || step.Rescan? || step.ClaimJob? || step.Heartbeat? || step.PruneJobs?
    ensures SameTagsAndDigests(db, after)
  {
    match step
    case RequestScan(m, priority) => EnqueuedMeans(db, m, priority, after);
    case Rescan(m, priority) => RescanStays(db, m, priority, after);
    case ClaimJob(worker, now) => ClaimStays(db, worker, now, after);
    case Heartbeat(j, worker, now) => RenewStays(db, j, worker, now, after);
    case PruneJobs(stale) => PrunedMeans(db, stale, after);
  }

  lemma RescanStays(db: Db, m: ManifestId, priority: int, after: Db)
    requires after == Rescanned(db, m, priority)
    ensures SameTagsAndDigests(db, after)
  {
    RescannedMeans(db, m, priority, after);
  }

  lemma RenewStays(db: Db, j: JobId, worker: string, now: Time, after: Db)
    requires after == Renewed(db, j, worker, now)
    ensures SameTagsAndDigests(db, after)
  {
    RenewedMeans(db, j, worker, now, after);
  }

  lemma StatusStays(db: Db, m: ManifestId, status: ScanStatus, after: Db)
    requires after.tags == db.tags && after.manifests == WithStatus(db.manifests, m, status)
    ensures SameTagsAndDigests(db, after)
  {
  }

  lemma ClaimStays(db: Db, worker: string, now: Time, after: Db)
    requires after == Claimed(db, worker, now)
    ensures SameTagsAndDigests(db, after)
  {
    ClaimedMeans(db, worker, now, after);
    if db.policy.scanningEnabled && exists j :: j in db.jobs && Free(db.jobs[j], now) {
      var j :| HandsOut(db, after, j, worker, now);
      var m := db.jobs[j].manifest;
      StatusStays(db, m, if ScannedBy(db, m) then Scanning else NotApplicable, after);
    }
  }

  lemma FailStays(db: Db, j: JobId, retry: bool, after: Db)
    requires j in db.jobs && after == FailedJob(db, j, retry)
    ensures SameTagsAndDigests(db, after)
  {
    FailedMeans(db, j, retry, after);
  }

  lemma ReportStays(db: Db, j: JobId, worker: string, report: seq<Parsed>, after: Db)
    requires RunningFor(db.jobs, j, worker) && db.jobs[j].manifest in db.manifests
    requires after == Reported(db, j, worker, Some(report))
    ensures SameTagsAndDigests(db, after)
  {
    ReportedMeans(db, j, worker, report, after);
  }

  lemma AttemptStays(db: Db, step: Reachable.Step, after: Db)
    requires (step.Report? || step.ReportFailure?) && after == Reachable.Next(db, step)
    ensures SameTagsAndDigests(db, after)
  {
    if !RunningFor(db.jobs, step.job, step.worker) {
      assert after == db;
    } else if step.ReportFailure? {
      FailStays(db, step.job, !step.permanent, after);
    } else if step.report.None? || db.jobs[step.job].manifest !in db.manifests {
      RejectedMeans(db, step.job, step.worker, step.report, after);
      FailStays(db, step.job, true, after);
    } else {
      ReportStays(db, step.job, step.worker, step.report.value, after);
    }
  }

  lemma RowStays(db: Db, step: Reachable.Step, after: Db, k: (RepoId, Tag))
    requires Reachable.Enabled(db, step) && after == Reachable.Next(db, step)
    requires step.CreateRepo? || step.SetFlags? || step.UploadBlob? || step.RecordBlob? || step.RemoveManifest?
             || step.RemoveTag? || step.RemoveBlob? || step.Touch? || step.Purge? || step.Evict? || step.SavePolicy?
    ensures StaysOrGoes(db, after, k)
  {
  }

  lemma CollectStays(db: Db, now: Time, after: Db, k: (RepoId, Tag))
    requires after == Collected(db, now)
    ensures StaysOrGoes(db, after, k)
  {
  }

  lemma OtherStepStays(db: Db, step: Reachable.Step, after: Db, k: (RepoId, Tag))
    requires RowsSound(db) && Reachable.Enabled(db, step) && after == Reachable.Next(db, step)
    requires !(step.PullTag? && (step.repo, step.tag) == k) && !(step.PushManifest? && step.repo == k.0)
    ensures StaysOrGoes(db, after, k)
  {
    if step.PullDigest? || step.PullTag? || step.PushManifest? {
      ContentStays(db, step, after, k);
    } else if step.RequestScan? || step.Rescan? || step.ClaimJob? || step.Heartbeat? || step.PruneJobs? {
      QueueStays(db, step, after);
    } else if step.Report? || step.ReportFailure? {
      AttemptStays(db, step, after);
    } else if step.RefreshKev? {
      RefreshStays(db, step.ids, after);
    } else if step.Collect? {
      CollectStays(db, step.now, after, k);
    } else {
      RowStays(db, step, after, k);
    }
  }

  lemma RefreshStays(db: Db, ids: set<string>, after: Db)
    requires after == KevRefreshed(db, ids)
    ensures SameTagsAndDigests(db, after)
  {
    KevRefreshedMeans(db, ids, after);
    if v :| v in ids && "CVE-" <= v {
      assert ReadAgain(db, after);
    } else {
      assert after == db;
    }
  }

  // ---------------------------------------------------------------------
  // Runs of both at once
  // ---------------------------------------------------------------------

  /** The steps of revalidations that write nothing, their commits, and every other
      transaction of the registry. */
  datatype Step =
    | Quiet(step: TagCache.Step)
    | Commit(id: TagCache.FlightId, outcome: TagOutcome)
    | Miss(id: TagCache.FlightId)
    | Other(other: Reachable.Step)

  datatype Both = Both(s: TagCache.State, db: Db)

  /** Pushes are into local repositories, so to a repository with an upstream there are
      none to leave out. */
  ghost predicate Enabled(b: Both, step: Step, k: (RepoId, Tag), ttl: nat) {
    match step
    case Quiet(c) => TagCache.Enabled(b.s, c, ttl) && !c.Settle? && !c.Missing? && !c.DropRow?
    case Commit(id, outcome) =>
      IsUpstreamRepo(b.db, k.0) && TagCache.Enabled(b.s, TagCache.Settle(id), ttl) && StandsFor(b.s.flights[id].phase, b.db, k.0, outcome)
    case Miss(id) => IsUpstreamRepo(b.db, k.0) && TagCache.Enabled(b.s, TagCache.Missing(id), ttl)
    case Other(t) =>
      Reachable.Enabled(b.db, t) && !(t.PullTag? && (t.repo, t.tag) == k) && !(t.PushManifest? && t.repo == k.0)
  }

  ghost function Next(b: Both, step: Step, k: (RepoId, Tag), ttl: nat): Both
    requires Enabled(b, step, k, ttl)
  {
    match step
    case Quiet(c) => Both(TagCache.Next(b.s, c, ttl), b.db)
    case Commit(id, outcome) => Both(TagCache.Next(b.s, TagCache.Settle(id), ttl), Revalidated(b.db, k.0, k.1, outcome, b.s.now))
    case Miss(id) => Both(TagCache.Next(b.s, TagCache.Missing(id), ttl), Revalidated(b.db, k.0, k.1, Gone, b.s.now))
    case Other(t) =>
      var after := Reachable.Next(b.db, t);
      Both(if k in after.tags then b.s else b.s.(row := None), after)
  }

  ghost predicate Sound(b: Both, k: (RepoId, Tag)) {
    Inv(b.db) && TagCache.Sound(b.s) && Shows(b.s.row, b.db, k)
  }

  /** A commit that confirms finds the digest it probed. */
  ghost predicate Agrees(b: Both, step: Step) {
    step.Commit? ==> TagCache.Agrees(b.s, TagCache.Settle(step.id))
  }

  lemma NextIsSound(b: Both, step: Step, k: (RepoId, Tag), ttl: nat)
    requires Sound(b, k) && Enabled(b, step, k, ttl) && Agrees(b, step)
    ensures Sound(Next(b, step, k, ttl), k)
  {
    var after := Next(b, step, k, ttl);
    match step
    case Quiet(c) => QuietIsSound(b, c, k, ttl);
    case Commit(id, outcome) => CommitIsSound(b, id, outcome, k, ttl, after);
    case Miss(id) =>
      TagCache.NextIsSound(b.s, TagCache.Missing(id), ttl);
      RevalidatedKeeps(b.db, k.0, k.1, Gone, b.s.now);
      MissingAlike(b.s, id, ttl, b.db, k.0, k.1, after.db);
    case Other(t) =>
      Reachable.NextKeeps(b.db, t);
      OtherStepStays(b.db, t, after.db, k);
  }

  lemma QuietIsSound(b: Both, c: TagCache.Step, k: (RepoId, Tag), ttl: nat)
    requires Sound(b, k) && TagCache.Enabled(b.s, c, ttl) && !c.Settle? && !c.Missing? && !c.DropRow?
    ensures Sound(Both(TagCache.Next(b.s, c, ttl), b.db), k)
  {
    TagCache.NextIsSound(b.s, c, ttl);
  }

  lemma CommitIsSound(b: Both, id: TagCache.FlightId, outcome: TagOutcome, k: (RepoId, Tag), ttl: nat, after: Both)
    requires Sound(b, k) && Enabled(b, Commit(id, outcome), k, ttl) && Agrees(b, Commit(id, outcome))
    requires after == Next(b, Commit(id, outcome), k, ttl)
    ensures Sound(after, k)
  {
    TagCache.NextIsSound(b.s, TagCache.Settle(id), ttl);
    RevalidatedKeeps(b.db, k.0, k.1, outcome, b.s.now);
    CommitsAlike(b.s, id, ttl, b.db, k.0, k.1, outcome, after.db);
  }

  ghost function Run(policy: Policy, steps: seq<Step>, k: (RepoId, Tag), ttl: nat): Both {
    if steps == [] then Both(TagCache.Start, InitDb(policy))
    else
      var b := Run(policy, steps[..|steps| - 1], k, ttl);
      var step := steps[|steps| - 1];
      if Enabled(b, step, k, ttl) then Next(b, step, k, ttl) else b
  }

  ghost predicate AllAgree(policy: Policy, steps: seq<Step>, k: (RepoId, Tag), ttl: nat) {
    forall i | 0 <= i < |steps| :: Agrees(Run(policy, steps[..i], k, ttl), steps[i])
  }

  lemma {:induction false} RunIsSound(policy: Policy, steps: seq<Step>, k: (RepoId, Tag), ttl: nat)
    requires AllAgree(policy, steps, k, ttl)
    ensures Sound(Run(policy, steps, k, ttl), k)
  {
    if steps == [] {
      InitHolds(policy);
    } else {
      var init, step := steps[..|steps| - 1], steps[|steps| - 1];
      forall i | 0 <= i < |init| ensures Agrees(Run(policy, init[..i], k, ttl), init[i]) {
        assert init[..i] == steps[..i];
      }
      RunIsSound(policy, init, k, ttl);
      if Enabled(Run(policy, init, k, ttl), step, k, ttl) {
        assert Agrees(Run(policy, init, k, ttl), step);
        NextIsSound(Run(policy, init, k, ttl), step, k, ttl);
      }
    }
  }

  /** Freshness on the tables: in every run of everything the registry does, in which no
      confirming commit met another digest, a tag's row names a manifest whose digest
      the upstream gave the tag during the revalidation that set `checked_at`; so while
      the row is fresh that was less than the TTL and one revalidation ago. */
  lemma TagRowsAreFresh(policy: Policy, steps: seq<Step>, k: (RepoId, Tag), ttl: nat)
    requires AllAgree(policy, steps, k, ttl) && k in Run(policy, steps, k, ttl).db.tags
    ensures var b := Run(policy, steps, k, ttl);
            && b.db.tags[k].manifest in b.db.manifests && b.s.row.Some?
            && var digest, checkedAt, since := b.db.manifests[b.db.tags[k].manifest].digest, b.db.tags[k].checkedAt, b.s.row.value.since;
            && checkedAt <= b.s.now
            && exists g :: g in b.s.gave && g.0 == digest && since <= g.1 <= checkedAt
                           && (b.s.now < checkedAt + ttl ==> b.s.now - g.1 < ttl + (checkedAt - since))
  {
    RunIsSound(policy, steps, k, ttl);
    var b := Run(policy, steps, k, ttl);
    var row := b.s.row.value;
    var g :| g in b.s.gave && g.0 == row.digest && row.since <= g.1 <= row.checkedAt;
  }
}
