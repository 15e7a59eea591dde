/**
 Every run of the registry: each transaction of the source is one atomic step, taken
 in any order by any number of clients, workers and housekeeping passes, against
 upstreams that may answer anything.
 */
module Reachable {
  import opened Common
  import opened Gate
  import opened Tables
  import opened Registry
  import opened Scanning
  import opened Push
  import opened Housekeeping

  datatype Step =
    | CreateRepo(upstream: Option<UpstreamId>)
    | SetFlags(repo: RepoId, pinned: bool, quarantined: bool, watched: set<Tag>)
    | PullDigest(repo: RepoId, body: Body, parent: Option<Ref>, now: Time)
    | PullTag(repo: RepoId, tag: Tag, outcome: TagOutcome, now: Time)
    | PushManifest(repo: RepoId, tagged: Option<Tag>, body: Body, files: set<Digest>, parent: Option<Ref>, now: Time)
    | UploadBlob(repo: RepoId, digest: Digest, size: nat, now: Time)
    | RecordBlob(digest: Digest, size: nat, isLocal: bool, now: Time)
    | RemoveManifest(repo: RepoId, digest: Digest)
    | RemoveTag(repo: RepoId, tag: Tag)
    | RemoveBlob(repo: RepoId, digest: Digest)
    | Touch(repo: RepoId, manifest: ManifestId, now: Time)
    | Purge(repo: RepoId)
    | Evict(gone: set<(RepoId, ManifestId)>)
    | Collect(now: Time)
    | RequestScan(manifest: ManifestId, priority: int)
    | Rescan(manifest: ManifestId, priority: int)
    | ClaimJob(worker: string, now: Time)
    | Heartbeat(job: JobId, worker: string, now: Time)
    | Report(job: JobId, worker: string, report: Option<seq<Parsed>>)
    | ReportFailure(job: JobId, worker: string, permanent: bool)
    | PruneJobs(stale: set<JobId>)
    | SavePolicy(policy: Policy)
    | RefreshKev(ids: set<string>)

  /** When a step can be taken at all: pulls need a repository with an upstream,
      pushes a local one, and a claim carries a worker's name. */
  ghost predicate Enabled(db: Db, step: Step) {
    match step
    case PullDigest(repo, _, _, _) => IsUpstreamRepo(db, repo)
    case PullTag(repo, _, _, _) => IsUpstreamRepo(db, repo)
    case PushManifest(repo, _, _, _, _, _) => IsLocal(db.repos, repo)
    case ClaimJob(worker, _) => worker != ""
    case _ => true
  }

  ghost function Next(db: Db, step: Step): Db
    requires Enabled(db, step)
  {
    match step
    case CreateRepo(upstream) => RepoCreated(db, upstream)
    case SetFlags(repo, pinned, quarantined, watched) => FlagsSet(db, repo, pinned, quarantined, watched)
    case PullDigest(repo, body, parent, now) => Fetched(db, repo, body, parent, now).0
    case PullTag(repo, tag, outcome, now) => Revalidated(db, repo, tag, outcome, now)
    case PushManifest(repo, tagged, body, files, parent, now) => Pushed(db, repo, tagged, body, files, parent, now).0
    case UploadBlob(repo, d, size, now) => BlobUploaded(db, repo, d, size, now)
    case RecordBlob(d, size, isLocal, now) => BlobRecorded(db, d, size, isLocal, now)
    case RemoveManifest(repo, d) => ManifestDeleted(db, repo, d)
    case RemoveTag(repo, tag) => TagDeleted(db, repo, tag)
    case RemoveBlob(repo, d) => BlobDeleted(db, repo, d)
    case Touch(repo, m, now) => Touched(db, repo, m, now)
    case Purge(repo) => Purged(db, repo)
    case Evict(gone) => AllUnlinked(db, gone)
    case Collect(now) => Collected(db, now)
    case RequestScan(m, priority) => Enqueued(db, m, priority)
    case Rescan(m, priority) => Rescanned(db, m, priority)
    case ClaimJob(worker, now) => Claimed(db, worker, now)
    case Heartbeat(j, worker, now) => Renewed(db, j, worker, now)
    case Report(j, worker, report) => Reported(db, j, worker, report)
    case ReportFailure(j, worker, permanent) => ReportedFailure(db, j, worker, permanent)
    case PruneJobs(stale) => Pruned(db, stale)
    case SavePolicy(policy) => PolicySaved(db, policy)
    case RefreshKev(ids) => KevRefreshed(db, ids)
  }

  // ---------------------------------------------------------------------
  // Every step keeps every invariant
  // ---------------------------------------------------------------------

  lemma BlobStepsKeep(db: Db, step: Step)
    requires Inv(db) && (step.UploadBlob? || step.RecordBlob? || step.RemoveBlob? || step.RemoveTag?)
    ensures Inv(Next(db, step))
  {
    match step
    case UploadBlob(repo, d, size, now) =>
      if repo !in db.repos {
        assert Next(db, step) == db;
      }
    case RecordBlob(d, size, isLocal, now) =>
      if d in db.blobs {
        assert Next(db, step) == db;
      }
    case RemoveBlob(repo, d) =>
    case RemoveTag(repo, tag) =>
  }

  lemma RepoStepsKeep(db: Db, step: Step)
    requires Inv(db)
    requires step.CreateRepo? || step.SetFlags? || step.Touch? || step.Purge? || step.Evict? || step.RemoveManifest?
    ensures Inv(Next(db, step))
  {
    var after := Next(db, step);
    match step
    case CreateRepo(upstream) => RepoCreatedKeeps(db, upstream, after);
    case SetFlags(repo, pinned, quarantined, watched) => FlagsSetKeeps(db, repo, pinned, quarantined, watched, after);
    case Touch(repo, m, now) => TouchedKeeps(db, repo, m, now, after);
    case Purge(repo) => PurgedKeeps(db, repo, after);
    case Evict(gone) => AllUnlinkedKeeps(db, gone, after);
    case RemoveManifest(repo, d) =>
      var row := RowOf(db.manifests, d);
      if row.Some? && (repo, row.value) in db.links {
        UnlinkedKeeps(db, repo, row.value, after);
      } else {
        assert after == db;
      }
  }

  lemma ContentStepsKeep(db: Db, step: Step)
    requires Inv(db) && Enabled(db, step)
    requires step.PullDigest? || step.PullTag? || step.PushManifest? || step.Collect?
    ensures Inv(Next(db, step))
  {
    match step
    case PullDigest(repo, body, parent, now) => FetchedKeeps(db, repo, body, parent, now);
    case PullTag(repo, tag, outcome, now) => RevalidatedKeeps(db, repo, tag, outcome, now);
    case PushManifest(repo, tagged, body, files, parent, now) => PushedKeeps(db, repo, tagged, body, files, parent, now);
    case Collect(now) => CollectedKeeps(db, now, Next(db, step));
  }

  lemma QueueStepsKeep(db: Db, step: Step)
    requires Inv(db) && Enabled(db, step)
    requires step.RequestScan? || step.Rescan? || step.ClaimJob? || step.Heartbeat? || step.PruneJobs?
    ensures Inv(Next(db, step))
  {
    match step
    case RequestScan(m, priority) => EnqueuedKeeps(db, m, priority);
    case Rescan(m, priority) => RescannedKeeps(db, m, priority);
    case ClaimJob(worker, now) => ClaimedKeeps(db, worker, now);
    case Heartbeat(j, worker, now) => RenewedKeeps(db, j, worker, now);
    case PruneJobs(stale) => PrunedKeeps(db, stale);
  }

  lemma JudgingStepsKeep(db: Db, step: Step)
    requires Inv(db) && (step.Report? || step.SavePolicy? || step.RefreshKev?)
    ensures Inv(Next(db, step))
  {
    match step
    case Report(j, worker, report) => ReportedKeeps(db, j, worker, report);
    case SavePolicy(policy) => PolicySavedKeeps(db, policy);
    case RefreshKev(ids) => KevRefreshedKeeps(db, ids);
  }

  lemma FailureKeeps(db: Db, step: Step, after: Db)
    requires Inv(db) && step.ReportFailure? && after == Next(db, step)
    ensures Inv(after)
  {
    if RunningFor(db.jobs, step.job, step.worker) {
      FailedJobKeeps(db, step.job, !step.permanent);
    } else {
      assert after == db;
    }
  }

  lemma NextKeeps(db: Db, step: Step)
    requires Inv(db) && Enabled(db, step)
    ensures Inv(Next(db, step))
  {
    if step.UploadBlob? || step.RecordBlob? || step.RemoveBlob? || step.RemoveTag? {
      BlobStepsKeep(db, step);
    } else if step.CreateRepo? || step.SetFlags? || step.Touch? || step.Purge? || step.Evict? || step.RemoveManifest? {
      RepoStepsKeep(db, step);
    } else if step.PullDigest? || step.PullTag? || step.PushManifest? || step.Collect? {
      ContentStepsKeep(db, step);
    } else if step.RequestScan? || step.Rescan? || step.ClaimJob? || step.Heartbeat? || step.PruneJobs? {
      QueueStepsKeep(db, step);
    } else if step.ReportFailure? {
      FailureKeeps(db, step, Next(db, step));
    } else {
      JudgingStepsKeep(db, step);
    }
  }

  // ---------------------------------------------------------------------
  // Runs
  // ---------------------------------------------------------------------

  /** The states a sequence of steps passes through; a step that is not enabled is a
      request the source turns away. */
  ghost function Run(policy: Policy, steps: seq<Step>): Db {
    if steps == [] then InitDb(policy)
    else
      var db := Run(policy, steps[..|steps| - 1]);
      var step := steps[|steps| - 1];
      if Enabled(db, step) then Next(db, step) else db
  }

  lemma {:induction false} RunKeeps(policy: Policy, steps: seq<Step>)
    ensures Inv(Run(policy, steps))
  {
    if steps == [] {
      InitHolds(policy);
    } else {
      RunKeeps(policy, steps[..|steps| - 1]);
      var db := Run(policy, steps[..|steps| - 1]);
      if Enabled(db, steps[|steps| - 1]) {
        NextKeeps(db, steps[|steps| - 1]);
      }
    }
  }

  lemma RunSnoc(policy: Policy, init: seq<Step>, step: Step)
    requires Enabled(Run(policy, init), step)
    ensures Run(policy, init + [step]) == Next(Run(policy, init), step)
  {
  }

  /** No interleaving leaves a dangling tag, and garbage collection deletes none. */
  lemma TagsNeverDangle(policy: Policy, steps: seq<Step>, repo: RepoId, tag: Tag, now: Time)
    ensures var db := Run(policy, steps);
            && ((repo, tag) in db.tags ==>
                  var m := db.tags[(repo, tag)].manifest; (repo, m) in db.links && m in db.manifests && repo in db.repos)
            && Collected(db, now).tags == db.tags
  {
    RunKeeps(policy, steps);
    CollectionKeepsTags(Run(policy, steps), now);
  }

  /** An upstream repository serves only bytes its own upstream has sent, although a
      moved tag may be followed without downloading anything. */
  lemma UpstreamBytesOnly(policy: Policy, steps: seq<Step>, repo: RepoId, m: ManifestId)
    ensures var db := Run(policy, steps);
            (repo, m) in db.links && repo in db.repos && db.repos[repo].upstream.Some? ==>
              m in db.manifests && (db.repos[repo].upstream.value, db.manifests[m].digest) in db.served
  {
    RunKeeps(policy, steps);
  }

  /** A finding is flagged exactly when its id is in the catalogue, whenever it was
      reported and however often the catalogue changed since. */
  lemma FlagsFollowCatalogue(policy: Policy, steps: seq<Step>, m: ManifestId, i: nat)
    ensures var db := Run(policy, steps);
            && (m in db.findings && i < |db.findings[m]| ==> (db.findings[m][i].kev <==> db.findings[m][i].vuln in db.kev))
            && (Judged(db.manifests, m) ==> db.manifests[m].kevCount == CountKev(FindingsOf(db.findings, m)))
  {
    RunKeeps(policy, steps);
  }

  function ActiveJobs(jobs: map<JobId, Job>, m: ManifestId): set<JobId> { set j | j in jobs && ActiveFor(jobs, j, m) }

  /** The queue in every reachable state: never two jobs at work for one image, one
      for an image shown as queued or scanning, none for one shown as unscanned or
      failed. */
  lemma QueueIsCoherent(policy: Policy, steps: seq<Step>, m: ManifestId)
    ensures var db := Run(policy, steps);
            && |ActiveJobs(db.jobs, m)| <= 1
            && (m in db.manifests && (db.manifests[m].status == Queued || db.manifests[m].status == Scanning) ==>
                  |ActiveJobs(db.jobs, m)| == 1)
            && (m in db.manifests && (db.manifests[m].status == Unscanned || db.manifests[m].status == Failed) ==>
                  |ActiveJobs(db.jobs, m)| == 0)
  {
    RunKeeps(policy, steps);
    CoherentCounts(Run(policy, steps).jobs, Run(policy, steps).manifests, m);
  }

  lemma CoherentCounts(jobs: map<JobId, Job>, manifests: map<ManifestId, Manifest>, m: ManifestId)
    requires JobsCoherent(jobs, manifests)
    ensures |ActiveJobs(jobs, m)| <= 1
    ensures m in manifests && (manifests[m].status == Queued || manifests[m].status == Scanning) ==> |ActiveJobs(jobs, m)| == 1
    ensures m in manifests && (manifests[m].status == Unscanned || manifests[m].status == Failed) ==> |ActiveJobs(jobs, m)| == 0
  {
    var active := ActiveJobs(jobs, m);
    if active != {} {
      var a :| a in active;
      assert active == {a};
    }
    if m in manifests && (manifests[m].status == Queued || manifests[m].status == Scanning) {
      var j :| j in jobs && jobs[j].Active() && jobs[j].manifest == m;
      assert j in active;
    }
  }

  // ---------------------------------------------------------------------
  // One document, two readings
  // ---------------------------------------------------------------------

  /** A document that states no media type of its own: an image with one config when an
      upstream serves it as an image, an empty index when it is pushed as one. */
  const AsImage := Body(7, 10, Image, None, 10, [Ref(ConfigRef, 99, false)])
  const AsIndex := Body(7, 10, Index, None, 10, [])

  /** A blob uploaded to repository 0, and the document pulled through repository 2. */
  const Before := [CreateRepo(None), UploadBlob(0, 99, 1, 0), CreateRepo(None), CreateRepo(Some(5)), PullDigest(2, AsImage, None, 0)]

  const Uploaded := map[0 := Repository(None, true, false, false, {}), 1 := Repository(None, true, false, false, {}),
                        2 := Repository(Some(5), false, false, false, {})]

  lemma Creates(policy: Policy, init: seq<Step>, upstream: Option<UpstreamId>)
    ensures Run(policy, init + [CreateRepo(upstream)]) == RepoCreated(Run(policy, init), upstream)
  {
    RunSnoc(policy, init, CreateRepo(upstream));
  }

  lemma Uploads(policy: Policy, init: seq<Step>, repo: RepoId, d: Digest, size: nat, now: Time)
    ensures Run(policy, init + [UploadBlob(repo, d, size, now)]) == BlobUploaded(Run(policy, init), repo, d, size, now)
  {
    RunSnoc(policy, init, UploadBlob(repo, d, size, now));
  }

  lemma TablesUpTo(policy: Policy, db: Db)
    requires db == RepoCreated(RepoCreated(BlobUploaded(RepoCreated(InitDb(policy), None), 0, 99, 1, 0), None), Some(5))
    ensures db.repos == Uploaded && db.held == {(0, 99)} && db.nextId == 3
    ensures db.manifests == map[] && db.refs == map[] && db.links == map[]
  {
  }

  lemma BeforeUpTo(policy: Policy)
    ensures var db := Run(policy, Before[..4]);
            && db.repos == Uploaded && db.held == {(0, 99)} && db.nextId == 3
            && db.manifests == map[] && db.refs == map[] && db.links == map[]
  {
    var one := [] + [CreateRepo(None)];
    var two := one + [UploadBlob(0, 99, 1, 0)];
    var three := two + [CreateRepo(None)];
    Creates(policy, [], None);
    Uploads(policy, one, 0, 99, 1, 0);
    Creates(policy, two, None);
    Creates(policy, three, Some(5));
    assert Before[..4] == three + [CreateRepo(Some(5))];
    TablesUpTo(policy, Run(policy, Before[..4]));
  }

  lemma BeforeRuns(policy: Policy)
    ensures var db := Run(policy, Before);
            && db.repos == Uploaded && db.held == {(0, 99)} && db.links.Keys == {(2, 3)}
            && db.refs == map[3 := AsImage.refs] && db.manifests == map[3 := NewRow(AsImage, Some(5), None, 0)]
  {
    BeforeUpTo(policy);
    assert Before == Before[..4] + [Before[4]];
    var db := Run(policy, Before[..4]);
    RunSnoc(policy, Before[..4], Before[4]);
    var sent := Sent(db, 5, 7);
    assert RowOf(sent.manifests, 7).None?;
    assert Stored(sent, AsImage, Some(5), None, 0) == (Inserted(sent, AsImage, Some(5), None, 0), 3);
  }

  lemma IndexPushed(db: Db, after: Db)
    requires Inv(db) && db.manifests == map[3 := NewRow(AsImage, Some(5), None, 0)] && db.refs == map[3 := AsImage.refs]
    requires after == Pushed(db, 1, None, AsIndex, {}, None, 0).0
    ensures BlobInRepo(after, 1, 99)
  {
    var m := Pushed(db, 1, None, AsIndex, {}, None, 0).1.value;
    assert 3 in db.manifests && db.manifests[3].digest == AsIndex.digest;
    StoredRow(db, AsIndex, None, 0);
    PushedTables(db, 1, None, AsIndex, {}, None, 0, after, m);
    assert after.refs[3][0].digest == 99;
    assert Names(after.refs, 3, 99);
  }

  lemma NotHereBefore(db: Db)
    requires db.held == {(0, 99)} && db.links.Keys == {(2, 3)}
    ensures !HasHere(db, 1, 99)
  {
  }

  /** Pushed as an empty index, it is stored already as an image: nothing is checked,
      and repository 1 then answers for the blob of repository 0. */
  lemma PushCanGrant(policy: Policy)
    ensures var push := PushManifest(1, None, AsIndex, {}, None, 0);
            && Enabled(Run(policy, Before), push)
            && !HasHere(Run(policy, Before), 1, 99) && BlobInRepo(Run(policy, Before + [push]), 1, 99)
  {
    var push := PushManifest(1, None, AsIndex, {}, None, 0);
    BeforeRuns(policy);
    RunKeeps(policy, Before);
    NotHereBefore(Run(policy, Before));
    RunSnoc(policy, Before, push);
    IndexPushed(Run(policy, Before), Next(Run(policy, Before), push));
  }
}
