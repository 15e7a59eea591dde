/**
 What the scan queue's rows say about the past: how often a job was claimed, how often
 it was handed back, by whom it was claimed last, and when its worker was last heard of.
 */
module ScanHistory {
  import opened Common
  import opened Gate
  import opened Tables
  import opened Registry
  import opened Scanning
  import opened Push
  import opened Housekeeping
  import opened Reachable
  import opened Effects

  /** The step is a claim, and this is the job it takes. */
  ghost predicate Claims(db: Db, step: Step, j: JobId) {
    step.ClaimJob? && step.worker != "" && db.policy.scanningEnabled && IsNext(Lapsed(db.jobs, step.now), j)
  }

  /** The step is a failed attempt that puts the job back in the queue. */
  ghost predicate HandsBack(db: Db, step: Step, j: JobId) {
    && j in db.jobs && db.jobs[j].attempts < MAX_ATTEMPTS
    && ((step.ReportFailure? && step.job == j && RunningFor(db.jobs, j, step.worker) && !step.permanent)
        || (step.Report? && step.job == j && RunningFor(db.jobs, j, step.worker)
            && (step.report.None? || db.jobs[j].manifest !in db.manifests)))
  }

  /** The step is an accepted heartbeat for this job. */
  ghost predicate Renews(db: Db, step: Step, j: JobId) {
    step.Heartbeat? && step.job == j && RunningFor(db.jobs, j, step.worker)
  }

  ghost function ClaimCount(policy: Policy, steps: seq<Step>, j: JobId): nat {
    if steps == [] then 0
    else
      var init := steps[..|steps| - 1];
      ClaimCount(policy, init, j) + if Claims(Run(policy, init), steps[|steps| - 1], j) then 1 else 0
  }

  ghost function HandBackCount(policy: Policy, steps: seq<Step>, j: JobId): nat {
    if steps == [] then 0
    else
      var init := steps[..|steps| - 1];
      HandBackCount(policy, init, j) + if HandsBack(Run(policy, init), steps[|steps| - 1], j) then 1 else 0
  }

  ghost function LastClaimer(policy: Policy, steps: seq<Step>, j: JobId): Option<string> {
    if steps == [] then None
    else
      var init := steps[..|steps| - 1];
      var step := steps[|steps| - 1];
      if Claims(Run(policy, init), step, j) then Some(step.worker) else LastClaimer(policy, init, j)
  }

  /** When the job was last claimed or its lease last renewed. */
  ghost function LastHeard(policy: Policy, steps: seq<Step>, j: JobId): Option<Time> {
    if steps == [] then None
    else
      var init := steps[..|steps| - 1];
      var step := steps[|steps| - 1];
      if Claims(Run(policy, init), step, j) || Renews(Run(policy, init), step, j) then Some(step.now) else LastHeard(policy, init, j)
  }

  // ---------------------------------------------------------------------
  // What one step can do to one job
  // ---------------------------------------------------------------------

  /** Everything a step that neither claims nor hands back may do to a job row. */
  predicate Quiet(before: Job, after: Job) {
    after.attempts == before.attempts
    && (after.status == Running ==>
          before.status == Running && after.worker == before.worker && after.leaseUntil == before.leaseUntil)
  }

  /** What happened to one job in one step. */
  datatype Event = TakenBy(worker: string, at: Time) | HandedBack | RenewedAt(at: Time) | Nothing

  ghost function EventFor(db: Db, step: Step, j: JobId): Event {
    if Claims(db, step, j) then TakenBy(step.worker, step.now)
    else if HandsBack(db, step, j) then HandedBack
    else if Renews(db, step, j) then RenewedAt(step.now)
    else Nothing
  }

  predicate RowEffect(before: Job, event: Event, after: Job) {
    match event
    case TakenBy(worker, at) =>
      after.attempts == before.attempts + 1
      && (after.status == Running ==> after.worker == Some(worker) && after.leaseUntil == at + LEASE)
    case HandedBack => before.status == Running && after.attempts == before.attempts && after.status == Waiting
    case RenewedAt(at) => before.status == Running && after == before.(leaseUntil := at + LEASE)
    case Nothing => Quiet(before, after)
  }

  predicate JobEffect(
    jobs: map<JobId, Job>, nextId: nat, event: Event, newJobs: map<JobId, Job>, newNextId: nat, j: JobId)
  {
    && newNextId >= nextId
    && (j in newJobs && j !in jobs ==> j >= nextId && newJobs[j].attempts == 0 && newJobs[j].status == Waiting)
    && (j in newJobs && j in jobs ==> RowEffect(jobs[j], event, newJobs[j]))
  }

  ghost predicate StepEffectOn(db: Db, step: Step, after: Db, j: JobId) {
    JobEffect(db.jobs, db.nextId, EventFor(db, step, j), after.jobs, after.nextId, j)
  }

  /** Job rows may go, but the ones left are as they were. */
  ghost predicate JobsDropped(db: Db, after: Db) {
    after.nextId >= db.nextId && forall j | j in after.jobs :: j in db.jobs && after.jobs[j] == db.jobs[j]
  }

  lemma StoredDrops(db: Db, body: Body, upstream: Option<UpstreamId>, parent: Option<Ref>, now: Time, after: Db)
    requires after == Stored(db, body, upstream, parent, now).0
    ensures JobsDropped(db, after)
  {
  }

  lemma LinkedDrops(db: Db, repo: RepoId, m: ManifestId, now: Time, after: Db)
    requires after == Linked(db, repo, m, now)
    ensures JobsDropped(db, after)
  {
  }

  lemma FetchedDrops(db: Db, repo: RepoId, body: Body, parent: Option<Ref>, now: Time, after: Db)
    requires IsUpstreamRepo(db, repo) && after == Fetched(db, repo, body, parent, now).0
    ensures JobsDropped(db, after)
  {
    var upstream := db.repos[repo].upstream;
    var (stored, m) := Stored(Sent(db, upstream.value, body.digest), body, upstream, parent, now);
    StoredDrops(Sent(db, upstream.value, body.digest), body, upstream, parent, now, stored);
    LinkedDrops(stored, repo, m, now, after);
  }

  lemma RevalidatedDrops(db: Db, repo: RepoId, tag: Tag, outcome: TagOutcome, now: Time, after: Db)
    requires IsUpstreamRepo(db, repo) && after == Revalidated(db, repo, tag, outcome, now)
    ensures JobsDropped(db, after)
  {
    match outcome
    case Confirmed =>
      if (repo, tag) !in db.tags {
        assert after == db;
      }
    case Moved(d) =>
      var known := RowOf(db.manifests, d);
      if known.Some? && Reusable(db.repos, db.links, repo, known.value) {
        LinkedDrops(db, repo, known.value, now, Linked(db, repo, known.value, now));
      } else {
        assert after == db;
      }
    case Refetched(body, parent) =>
      FetchedDrops(db, repo, body, parent, now, Fetched(db, repo, body, parent, now).0);
    case Gone =>
  }

  lemma PushedDrops(
    db: Db, repo: RepoId, tag: Option<Tag>, body: Body, files: set<Digest>, parent: Option<Ref>, now: Time, after: Db)
    requires after == Pushed(db, repo, tag, body, files, parent, now).0
    ensures JobsDropped(db, after)
  {
    if AllPresent(db, repo, files, body.refs) {
      var (stored, m) := Stored(db, body, None, parent, now);
      StoredDrops(db, body, None, parent, now, stored);
      var linked := Linked(stored, repo, m, now);
      LinkedDrops(stored, repo, m, now, linked);
      AppliedKeepsLinks(linked, m);
      if tag.Some? {
        assert after == Tagged(Applied(linked, m), repo, tag.value, m, now);
      }
    } else {
      assert after == db;
    }
  }

  lemma RowStepDrops(db: Db, step: Step, after: Db)
    requires Enabled(db, step) && after == Next(db, step)
    requires step.CreateRepo? || step.SetFlags? || step.UploadBlob? || step.RecordBlob? || step.RemoveManifest?
             || step.RemoveTag? || step.RemoveBlob? || step.Touch? || step.Purge? || step.Evict?
    ensures JobsDropped(db, after)
  {
  }

  lemma ContentStepDrops(db: Db, step: Step, after: Db)
    requires Enabled(db, step) && (step.PullDigest? || step.PullTag? || step.PushManifest?) && after == Next(db, step)
    ensures JobsDropped(db, after)
  {
    match step
    case PullDigest(repo, body, parent, now) => FetchedDrops(db, repo, body, parent, now, after);
    case PullTag(repo, tag, outcome, now) => RevalidatedDrops(db, repo, tag, outcome, now, after);
    case PushManifest(repo, tagged, body, files, parent, now) =>
      PushedDrops(db, repo, tagged, body, files, parent, now, after);
  }

  lemma PassDrops(db: Db, step: Step, after: Db)
    requires step.Collect? || step.PruneJobs? || step.SavePolicy? || step.RefreshKev?
    requires after == Next(db, step)
    ensures JobsDropped(db, after)
  {
    match step
    case Collect(now) => CollectDrops(db, now, after);
    case PruneJobs(stale) => PrunedMeans(db, stale, after);
    case SavePolicy(policy) =>
    case RefreshKev(ids) => RefreshDrops(db, ids, after);
  }

  lemma CollectDrops(db: Db, now: Time, after: Db)
    requires after == Collected(db, now)
    ensures JobsDropped(db, after)
  {
  }

  lemma RefreshDrops(db: Db, ids: set<string>, after: Db)
    requires after == KevRefreshed(db, ids)
    ensures JobsDropped(db, after)
  {
    if (set v | v in ids && IsCve(v)) == {} {
      assert after == db;
    }
  }

  predicate IsQueueStep(step: Step) {
    step.RequestScan? || step.Rescan? || step.ClaimJob? || step.Heartbeat? || step.Report? || step.ReportFailure?
  }

  /** Steps outside the queue drop job rows at most. */
  lemma OtherStepDrops(db: Db, step: Step, after: Db)
    requires Enabled(db, step) && !IsQueueStep(step) && after == Next(db, step)
    ensures JobsDropped(db, after)
  {
    if step.PullDigest? || step.PullTag? || step.PushManifest? {
      ContentStepDrops(db, step, after);
    } else if step.Collect? || step.PruneJobs? || step.SavePolicy? || step.RefreshKev? {
      PassDrops(db, step, after);
    } else {
      RowStepDrops(db, step, after);
    }
  }

  lemma EnqueuedRows(db: Db, m: ManifestId, priority: int, after: Db, j: JobId)
    requires JobsSound(db.jobs, db.manifests.Keys, db.nextId)
    requires after == Enqueued(db, m, priority)
    ensures JobEffect(db.jobs, db.nextId, Nothing, after.jobs, after.nextId, j)
  {
    if m !in db.manifests || db.manifests[m].kind != Image {
      assert after == db;
    } else if i :| ActiveFor(db.jobs, i, m) {
      ReprioritisedRows(db, m, priority, after);
    } else {
      assert after.jobs == db.jobs[db.nextId := Job(m, Waiting, 0, priority, None, 0)];
    }
  }

  lemma ReprioritisedRows(db: Db, m: ManifestId, priority: int, after: Db)
    requires m in db.manifests && db.manifests[m].kind == Image && exists i :: ActiveFor(db.jobs, i, m)
    requires after == Enqueued(db, m, priority)
    ensures after.nextId == db.nextId && after.jobs.Keys == db.jobs.Keys
    ensures forall j | j in db.jobs :: Quiet(db.jobs[j], after.jobs[j])
  {
    var i :| ActiveFor(db.jobs, i, m) && (after == db || after == Reprioritised(db, i, priority));
    if after != db {
      assert after == Reprioritised(db, i, priority);
    }
  }

  lemma RescannedRows(db: Db, m: ManifestId, priority: int, after: Db, j: JobId)
    requires JobsSound(db.jobs, db.manifests.Keys, db.nextId)
    requires after == Rescanned(db, m, priority)
    ensures JobEffect(db.jobs, db.nextId, Nothing, after.jobs, after.nextId, j)
  {
    if m in db.manifests && db.manifests[m].kind == Image && (exists r :: (r, m) in db.links) {
      if db.manifests[m].status == Failed {
        var reset := db.(manifests := db.manifests[m := db.manifests[m].(status := Unscanned)]);
        assert reset.manifests.Keys == db.manifests.Keys;
        EnqueuedRows(reset, m, priority, after, j);
      } else {
        EnqueuedRows(db, m, priority, after, j);
      }
    } else {
      assert after == db;
    }
  }

  lemma MovedRows(db: Db, i: JobId, job: Job, status: ScanStatus, after: Db)
    requires after == Scanning.Moved(db, i, job, status)
    ensures after.jobs == db.jobs[i := job] && after.nextId == db.nextId
  {
  }

  /** What claiming writes onto the job it takes. */
  predicate TakenRow(before: Job, after: Job, worker: string, now: Time) {
    after.attempts == before.attempts + 1 && after.worker == Some(worker) && after.leaseUntil == now + LEASE
  }

  lemma TakenRows(db: Db, i: JobId, worker: string, now: Time, after: Db)
    requires i in db.jobs && after == Taken(db, i, worker, now)
    ensures after.nextId == db.nextId && after.jobs.Keys == db.jobs.Keys
    ensures after.jobs == db.jobs[i := after.jobs[i]] && TakenRow(db.jobs[i], after.jobs[i], worker, now)
  {
    var scanned := ScannedBy(db, db.jobs[i].manifest);
    TakenMoves(db, i, worker, now);
    MovedRows(db, i, HandedTo(db.jobs[i], scanned, worker, now), if scanned then Scanning else NotApplicable, after);
  }

  lemma ClaimedRows(db: Db, worker: string, now: Time, after: Db)
    requires after == Claimed(db, worker, now)
    ensures after.nextId == db.nextId && after.jobs.Keys == db.jobs.Keys
    ensures forall j | j in db.jobs ::
              RowEffect(db.jobs[j], if db.policy.scanningEnabled && IsNext(Lapsed(db.jobs, now), j) then TakenBy(worker, now) else Nothing, after.jobs[j])
  {
    var lapsed := db.(jobs := Lapsed(db.jobs, now));
    if !db.policy.scanningEnabled {
      assert after == db;
    } else if exists i :: IsNext(lapsed.jobs, i) {
      var i :| IsNext(lapsed.jobs, i) && after == Taken(lapsed, i, worker, now);
      NextIsUnique(lapsed.jobs, i);
      TakenRows(lapsed, i, worker, now, after);
    } else {
      assert after == lapsed;
    }
  }

  /** How a job row looks after a failed attempt. */
  function Resolved(job: Job, retry: bool): Job {
    if job.attempts >= MAX_ATTEMPTS || !retry then job.(status := GivenUp)
    else job.(status := Waiting, worker := None, leaseUntil := 0)
  }

  lemma FailedRows(db: Db, i: JobId, retry: bool, after: Db)
    requires i in db.jobs && after == FailedJob(db, i, retry)
    ensures after.jobs == db.jobs[i := Resolved(db.jobs[i], retry)] && after.nextId == db.nextId
  {
    var job := db.jobs[i];
    if job.attempts >= MAX_ATTEMPTS || !retry {
      MovedRows(db, i, job.(status := GivenUp), Failed, after);
    } else {
      MovedRows(db, i, job.(status := Waiting, worker := None, leaseUntil := 0), AfterRetry(db, job.manifest), after);
    }
  }

  lemma IngestedRows(db: Db, i: JobId, report: seq<Parsed>, after: Db)
    requires i in db.jobs && db.jobs[i].manifest in db.manifests && after == Ingested(db, i, report)
    ensures after.jobs == db.jobs[i := db.jobs[i].(status := Done)] && after.nextId == db.nextId + 1
  {
  }

  lemma ReportEffect(db: Db, step: Step, after: Db, j: JobId)
    requires step.Report? && after == Reported(db, step.job, step.worker, step.report)
    ensures StepEffectOn(db, step, after, j)
  {
    if !RunningFor(db.jobs, step.job, step.worker) {
      assert after == db;
    } else if step.report.Some? && db.jobs[step.job].manifest in db.manifests {
      IngestedRows(db, step.job, step.report.value, after);
    } else {
      FailedRows(db, step.job, true, after);
    }
  }

  lemma FailureEffect(db: Db, step: Step, after: Db, j: JobId)
    requires step.ReportFailure? && after == ReportedFailure(db, step.job, step.worker, step.permanent)
    ensures StepEffectOn(db, step, after, j)
  {
    if !RunningFor(db.jobs, step.job, step.worker) {
      assert after == db;
    } else {
      FailedRows(db, step.job, !step.permanent, after);
    }
  }

  lemma RenewedRows(db: Db, i: JobId, worker: string, now: Time, after: Db, j: JobId)
    requires after == Renewed(db, i, worker, now)
    ensures JobEffect(db.jobs, db.nextId, if j == i && RunningFor(db.jobs, i, worker) then RenewedAt(now) else Nothing,
                      after.jobs, after.nextId, j)
  {
    if RunningFor(db.jobs, i, worker) {
      assert after.jobs == db.jobs[i := db.jobs[i].(leaseUntil := now + LEASE)];
    } else {
      assert after == db;
    }
  }

  lemma ClaimEffect(db: Db, step: Step, after: Db, j: JobId)
    requires JobsSound(db.jobs, db.manifests.Keys, db.nextId)
    requires step.ClaimJob? && step.worker != "" && after == Claimed(db, step.worker, step.now)
    ensures StepEffectOn(db, step, after, j)
  {
    ClaimedRows(db, step.worker, step.now, after);
    ClaimEvent(db, step, j);
    assert j in db.jobs ==> RowEffect(db.jobs[j], EventFor(db, step, j), after.jobs[j]);
  }

  lemma ClaimEvent(db: Db, step: Step, j: JobId)
    requires step.ClaimJob? && step.worker != ""
    ensures EventFor(db, step, j) ==
            if db.policy.scanningEnabled && IsNext(Lapsed(db.jobs, step.now), j) then TakenBy(step.worker, step.now) else Nothing
  {
  }

  lemma HeartbeatEffect(db: Db, step: Step, after: Db, j: JobId)
    requires step.Heartbeat? && after == Renewed(db, step.job, step.worker, step.now)
    ensures StepEffectOn(db, step, after, j)
  {
    RenewedRows(db, step.job, step.worker, step.now, after, j);
  }

  lemma StepEffect(db: Db, step: Step, after: Db, j: JobId)
    requires JobsSound(db.jobs, db.manifests.Keys, db.nextId)
    requires Enabled(db, step) && after == Next(db, step)
    ensures StepEffectOn(db, step, after, j)
  {
    if step.ClaimJob? {
      ClaimEffect(db, step, after, j);
    } else if step.Report? {
      ReportEffect(db, step, after, j);
    } else if step.ReportFailure? {
      FailureEffect(db, step, after, j);
    } else if step.Heartbeat? {
      HeartbeatEffect(db, step, after, j);
    } else {
      QuietStepEffect(db, step, after, j);
    }
  }

  lemma QuietStepEffect(db: Db, step: Step, after: Db, j: JobId)
    requires JobsSound(db.jobs, db.manifests.Keys, db.nextId)
    requires Enabled(db, step) && !step.ClaimJob? && !step.Report? && !step.ReportFailure? && !step.Heartbeat?
    requires after == Next(db, step)
    ensures JobEffect(db.jobs, db.nextId, Nothing, after.jobs, after.nextId, j)
  {
    if step.RequestScan? {
      EnqueuedRows(db, step.manifest, step.priority, after, j);
    } else if step.Rescan? {
      RescannedRows(db, step.manifest, step.priority, after, j);
    } else {
      OtherStepDrops(db, step, after);
    }
  }

  // ---------------------------------------------------------------------
  // Over whole runs
  // ---------------------------------------------------------------------

  /** One job's row, how often it was claimed and handed back, by whom it was claimed
      last and when its worker was last heard of. */
  ghost predicate RowRemembers(
    jobs: map<JobId, Job>, nextId: nat, claims: nat, handBacks: nat, claimer: Option<string>, heard: Option<Time>, j: JobId)
  {
    && (j >= nextId ==> claims == 0 && handBacks == 0 && j !in jobs)
    && handBacks <= MAX_ATTEMPTS - 1
    && (j in jobs ==>
          && jobs[j].attempts == claims
          && handBacks <= claims
          && (jobs[j].status == Running ==>
                jobs[j].worker == claimer && handBacks < claims && heard.Some? && jobs[j].leaseUntil == heard.value + LEASE))
  }

  ghost predicate Remembers(policy: Policy, steps: seq<Step>, j: JobId) {
    var db := Run(policy, steps);
    RowRemembers(db.jobs, db.nextId, ClaimCount(policy, steps, j), HandBackCount(policy, steps, j), LastClaimer(policy, steps, j),
                 LastHeard(policy, steps, j), j)
  }

  lemma RemembersStep(
    jobs: map<JobId, Job>, nextId: nat, claims: nat, handBacks: nat, claimer: Option<string>, heard: Option<Time>,
    event: Event, newJobs: map<JobId, Job>, newNextId: nat, j: JobId)
    requires RowRemembers(jobs, nextId, claims, handBacks, claimer, heard, j)
    requires JobEffect(jobs, nextId, event, newJobs, newNextId, j)
    requires j in newJobs ==> j < newNextId
    requires event.TakenBy? ==> j in jobs
    requires event.HandedBack? ==> j in jobs && jobs[j].attempts < MAX_ATTEMPTS && jobs[j].status == Running
    ensures RowRemembers(newJobs, newNextId,
                         claims + if event.TakenBy? then 1 else 0,
                         handBacks + if event.HandedBack? then 1 else 0,
                         if event.TakenBy? then Some(event.worker) else claimer,
                         if event.TakenBy? || event.RenewedAt? then Some(event.at) else heard, j)
  {
  }

  lemma StepRemembers(
    db: Db, step: Step, after: Db, claims: nat, handBacks: nat, claimer: Option<string>, heard: Option<Time>, j: JobId)
    requires JobsSound(db.jobs, db.manifests.Keys, db.nextId) && JobsSound(after.jobs, after.manifests.Keys, after.nextId)
    requires Enabled(db, step) && after == Next(db, step)
    requires RowRemembers(db.jobs, db.nextId, claims, handBacks, claimer, heard, j)
    ensures var event := EventFor(db, step, j);
            RowRemembers(after.jobs, after.nextId,
                         claims + if event.TakenBy? then 1 else 0, handBacks + if event.HandedBack? then 1 else 0,
                         if event.TakenBy? then Some(event.worker) else claimer,
                         if event.TakenBy? || event.RenewedAt? then Some(event.at) else heard, j)
  {
    StepEffect(db, step, after, j);
    RemembersStep(db.jobs, db.nextId, claims, handBacks, claimer, heard, EventFor(db, step, j), after.jobs, after.nextId, j);
  }

  /** In every reachable state a job's `attempts` is the number of times it was
      claimed, its worker is the one that claimed it last, its lease runs for LEASE from
      when that worker was last heard of, and it was handed back after a failure fewer
      than MAX_ATTEMPTS times. */
  lemma {:induction false} JobsRemember(policy: Policy, steps: seq<Step>, j: JobId)
    ensures Remembers(policy, steps, j)
  {
    if steps != [] {
      var init := steps[..|steps| - 1];
      var step := steps[|steps| - 1];
      JobsRemember(policy, init, j);
      RunKeeps(policy, init);
      RunKeeps(policy, steps);
      HistoryNext(policy, steps, j);
      NextRemembers(Run(policy, init), step, Run(policy, steps), ClaimCount(policy, init, j), HandBackCount(policy, init, j),
                    LastClaimer(policy, init, j), LastHeard(policy, init, j), j);
    }
  }

  /** The history of a run, from that of the run before its last step. */
  lemma HistoryNext(policy: Policy, steps: seq<Step>, j: JobId)
    requires steps != []
    ensures var init, step := steps[..|steps| - 1], steps[|steps| - 1];
            var db, event := Run(policy, init), EventFor(Run(policy, init), step, j);
            && Run(policy, steps) == (if Enabled(db, step) then Next(db, step) else db)
            && ClaimCount(policy, steps, j) == ClaimCount(policy, init, j) + (if event.TakenBy? then 1 else 0)
            && HandBackCount(policy, steps, j) == HandBackCount(policy, init, j) + (if event.HandedBack? then 1 else 0)
            && LastClaimer(policy, steps, j) == (if event.TakenBy? then Some(event.worker) else LastClaimer(policy, init, j))
            && LastHeard(policy, steps, j) == (if event.TakenBy? || event.RenewedAt? then Some(event.at) else LastHeard(policy, init, j))
  {
  }

  lemma NextRemembers(
    db: Db, step: Step, after: Db, claims: nat, handBacks: nat, claimer: Option<string>, heard: Option<Time>, j: JobId)
    requires JobsSound(db.jobs, db.manifests.Keys, db.nextId) && JobsSound(after.jobs, after.manifests.Keys, after.nextId)
    requires after == if Enabled(db, step) then Next(db, step) else db
    requires RowRemembers(db.jobs, db.nextId, claims, handBacks, claimer, heard, j)
    ensures var event := EventFor(db, step, j);
            RowRemembers(after.jobs, after.nextId,
                         claims + if event.TakenBy? then 1 else 0, handBacks + if event.HandedBack? then 1 else 0,
                         if event.TakenBy? then Some(event.worker) else claimer,
                         if event.TakenBy? || event.RenewedAt? then Some(event.at) else heard, j)
  {
    if Enabled(db, step) {
      StepRemembers(db, step, after, claims, handBacks, claimer, heard, j);
    } else {
      assert after == db && EventFor(db, step, j) == Nothing;
    }
  }

  /** A running job is its worker's for exactly 120 seconds after the claim or the last
      accepted heartbeat: a claim made by then leaves it alone, and one made later puts
      it back in the queue or hands it out anew. */
  lemma LeaseIsKept(policy: Policy, steps: seq<Step>, j: JobId, worker: string, now: Time)
    requires j in Run(policy, steps).jobs && Run(policy, steps).jobs[j].status == Running
    ensures LastHeard(policy, steps, j).Some?
    ensures var db, after := Run(policy, steps), Claimed(Run(policy, steps), worker, now);
            var heard := LastHeard(policy, steps, j).value;
            && j in after.jobs
            && (now <= heard + 120 ==> after.jobs[j] == db.jobs[j])
            && (now > heard + 120 && db.policy.scanningEnabled ==>
                  (after.jobs[j].status == Waiting && after.jobs[j].worker.None?) || HandsOut(db, after, j, worker, now))
  {
    var db := Run(policy, steps);
    JobsRemember(policy, steps, j);
    ClaimedMeans(db, worker, now, Claimed(db, worker, now));
    if now > db.jobs[j].leaseUntil && db.policy.scanningEnabled {
      assert Free(db.jobs[j], now);
    }
  }

  /** A report, failure or heartbeat is accepted exactly when the job is running and
      the request names no worker or the one that claimed it last. */
  lemma AcceptedFromLastClaimer(policy: Policy, steps: seq<Step>, j: JobId, worker: string)
    ensures var db := Run(policy, steps);
            RunningFor(db.jobs, j, worker) <==>
              j in db.jobs && db.jobs[j].status == Running
              && (worker == "" || Some(worker) == LastClaimer(policy, steps, j))
  {
    JobsRemember(policy, steps, j);
  }

  /** So acceptance identifies the claimer exactly when the request names a worker. */
  lemma NamedWorkerIsLastClaimer(policy: Policy, steps: seq<Step>, j: JobId, worker: string)
    requires RunningFor(Run(policy, steps).jobs, j, worker)
    ensures Some(worker) == LastClaimer(policy, steps, j) <==> worker != ""
  {
    JobsRemember(policy, steps, j);
    RunKeeps(policy, steps);
  }

  /** A run in which a request that names no worker is accepted for a job another
      worker is running. */
  lemma UnnamedWorkerAccepted(policy: Policy)
    requires policy.scanningEnabled && policy.maxScanBytes == 0
    ensures exists steps :: RunningFor(Run(policy, steps).jobs, 2, "") && LastClaimer(policy, steps, 2) == Some("w")
  {
    var steps := UnnamedSetup(policy);
    var db := Run(policy, steps);
    assert Lapsed(db.jobs, 0) == db.jobs;
    assert IsNext(db.jobs, 2);
    var claim := ClaimJob("w", 0);
    assert Claims(db, claim, 2);
    RunSnoc(policy, steps, claim);
    var after := Run(policy, steps + [claim]);
    ClaimedRows(db, "w", 0, after);
    NextIsUnique(db.jobs, 2);
    assert after == Taken(db, 2, "w", 0) && after.jobs[2].status == Running;
    assert (steps + [claim])[..|steps|] == steps;
    assert LastClaimer(policy, steps + [claim], 2) == Some("w");
  }

  lemma LocalRepoRun(policy: Policy) returns (steps: seq<Step>)
    ensures Run(policy, steps) ==
              InitDb(policy).(repos := map[0 := Repository(None, true, false, false, {})], nextId := 1)
  {
    steps := [];
    RunSnoc(policy, steps, CreateRepo(None));
    steps := steps + [CreateRepo(None)];
  }

  lemma UnnamedSetup(policy: Policy) returns (steps: seq<Step>)
    ensures var db := Run(policy, steps);
            db.jobs == map[2 := Job(1, Waiting, 0, 10, None, 0)] && db.policy == policy
            && 1 in db.manifests && db.manifests[1].kind == Image && db.manifests[1].totalSize == 1
  {
    var body := Body(7, 1, Image, None, 1, []);
    steps := LocalRepoRun(policy);
    var d1 := Run(policy, steps);
    var push := PushManifest(0, None, body, {}, None, 0);
    RunSnoc(policy, steps, push);
    steps := steps + [push];
    var d2 := Run(policy, steps);
    FirstPush(d1, body, d2);
    RunSnoc(policy, steps, RequestScan(1, 10));
    steps := steps + [RequestScan(1, 10)];
  }

  lemma FirstPush(db: Db, body: Body, after: Db)
    requires db.manifests == map[] && db.jobs == map[] && db.nextId == 1 && body.refs == []
    requires after == Pushed(db, 0, None, body, {}, None, 0).0
    ensures after.jobs == map[] && after.nextId == 2 && after.policy == db.policy
    ensures 1 in after.manifests && after.manifests[1] == NewRow(body, None, None, 0)
  {
    assert RowOf(db.manifests, body.digest).None?;
    assert Stored(db, body, None, None, 0) == (Inserted(db, body, None, None, 0), 1);
    var stored := Inserted(db, body, None, None, 0);
    LinkedRows(stored, 0, 1, 0);
    AppliedKeepsLinks(Linked(stored, 0, 1, 0), 1);
    assert after == Applied(Linked(stored, 0, 1, 0), 1);
  }

  lemma LinkedRows(db: Db, repo: RepoId, m: ManifestId, now: Time)
    ensures var after := Linked(db, repo, m, now);
            after.jobs == db.jobs && after.nextId == db.nextId && after.policy == db.policy && after.manifests == db.manifests
  {
  }
}
