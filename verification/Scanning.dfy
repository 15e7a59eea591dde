/**
 The scan queue, result ingestion and the cached push verdict:
 backend/app/docker/scanning.py and the worker protocol of backend/app/api/docker_api.py.
 */
module Scanning {
  import opened Common
  import opened Gate
  import opened Tables

  const LEASE: Time := 120
  const MAX_ATTEMPTS := 3

  /** A finding as the worker reports it, before the catalogue is consulted. */
  datatype Parsed = Parsed(vuln: string, severity: Severity, fixed: Option<string>)

  // ---------------------------------------------------------------------
  // The queue
  // ---------------------------------------------------------------------

  predicate ActiveFor(jobs: map<JobId, Job>, j: JobId, m: ManifestId) {
    j in jobs && jobs[j].Active() && jobs[j].manifest == m
  }

  function Reprioritised(db: Db, j: JobId, priority: int): Db
    requires j in db.jobs
  {
    db.(jobs := db.jobs[j := db.jobs[j].(priority := priority)])
  }

  ghost function Enqueued(db: Db, m: ManifestId, priority: int): Db {
    if m !in db.manifests || db.manifests[m].kind != Image then db
    else if exists j :: ActiveFor(db.jobs, j, m) then
      var j :| ActiveFor(db.jobs, j, m);
      if priority < db.jobs[j].priority && db.jobs[j].status == Waiting then Reprioritised(db, j, priority) else db
    else
      var row := db.manifests[m];
      db.(jobs := db.jobs[db.nextId := Job(m, Waiting, 0, priority, None, 0)],
          manifests := if row.status == Unscanned || row.status == Failed
                       then db.manifests[m := row.(status := Queued)] else db.manifests,
          nextId := db.nextId + 1)
  }

  /** Running jobs whose worker stopped renewing go back to the queue. */
  function Lapsed(jobs: map<JobId, Job>, now: Time): map<JobId, Job> {
    map j | j in jobs ::
      if jobs[j].status == Running && jobs[j].leaseUntil < now then jobs[j].(status := Waiting, worker := None, leaseUntil := 0)
      else jobs[j]
  }

  predicate Before(jobs: map<JobId, Job>, i: JobId, j: JobId)
    requires i in jobs && j in jobs
  {
    jobs[i].priority < jobs[j].priority || (jobs[i].priority == jobs[j].priority && i <= j)
  }

  /** Lowest priority value first, then lowest id. */
  ghost predicate IsNext(jobs: map<JobId, Job>, j: JobId) {
    && j in jobs && jobs[j].status == Waiting
    && forall i | i in jobs && jobs[i].status == Waiting :: Before(jobs, j, i)
  }

  predicate TooBig(m: Manifest, policy: Policy) { policy.maxScanBytes > 0 && m.totalSize > policy.maxScanBytes }

  predicate Scannable(db: Db, m: ManifestId) {
    m in db.manifests && db.manifests[m].kind == Image && !TooBig(db.manifests[m], db.policy)
  }

  /** One job row and its manifest's scan status, if the manifest is still there,
      are written together. */
  function Moved(db: Db, j: JobId, job: Job, status: ScanStatus): Db {
    db.(jobs := db.jobs[j := job],
        manifests := if job.manifest in db.manifests
                     then db.manifests[job.manifest := db.manifests[job.manifest].(status := status)] else db.manifests)
  }

  ghost function Taken(db: Db, j: JobId, worker: string, now: Time): Db
    requires j in db.jobs
  {
    var job := db.jobs[j];
    var running := job.(status := Running, worker := Some(worker), attempts := job.attempts + 1, leaseUntil := now + LEASE);
    if !Scannable(db, job.manifest)
    then Moved(db, j, running.(status := Done), NotApplicable)
    else Moved(db, j, running, Scanning)
  }

  /** `scanner_claim`: requeue lapsed jobs, take the next one, and either hand it to
      the worker or skip it as unscannable. */
  ghost function Claimed(db: Db, worker: string, now: Time): Db {
    if !db.policy.scanningEnabled then db
    else
      var lapsed := db.(jobs := Lapsed(db.jobs, now));
      if exists j :: IsNext(lapsed.jobs, j) then
        var j :| IsNext(lapsed.jobs, j);
        Taken(lapsed, j, worker, now)
      else lapsed
  }

  /** `_running_job`: the job must be running and, when the request names a worker,
      be that worker's. An empty name is not compared. */
  predicate RunningFor(jobs: map<JobId, Job>, j: JobId, worker: string) {
    j in jobs && jobs[j].status == Running && (worker == "" || jobs[j].worker == Some(worker))
  }

  function Renewed(db: Db, j: JobId, worker: string, now: Time): Db {
    if RunningFor(db.jobs, j, worker) then db.(jobs := db.jobs[j := db.jobs[j].(leaseUntil := now + LEASE)]) else db
  }

  /** `fail` */
  function FailedJob(db: Db, j: JobId, retry: bool): Db
    requires j in db.jobs
  {
    var job := db.jobs[j];
    if job.attempts >= MAX_ATTEMPTS || !retry then Moved(db, j, job.(status := GivenUp), Failed)
    else Moved(db, j, job.(status := Waiting, worker := None, leaseUntil := 0),
               AfterRetry(db, job.manifest))
  }

  /** A retried image is shown as queued again, unless something else was written. */
  function AfterRetry(db: Db, m: ManifestId): ScanStatus {
    if m !in db.manifests || db.manifests[m].status == Scanning then Queued else db.manifests[m].status
  }

  function ReportedFailure(db: Db, j: JobId, worker: string, permanent: bool): Db {
    if RunningFor(db.jobs, j, worker) then FailedJob(db, j, !permanent) else db
  }

  // ---------------------------------------------------------------------
  // The push verdict
  // ---------------------------------------------------------------------

  /** `apply_push_policy`: the verdict goes onto the image's link in every local
      repository, and nowhere else. */
  function Applied(db: Db, m: ManifestId): Db {
    if !Judged(db.manifests, m) then db
    else
      db.(links := map k | k in db.links ::
            if k.1 == m && IsLocal(db.repos, k.0)
            then db.links[k].(block := PushVerdict(db.findings, db.policy, m)) else db.links[k])
  }

  /** `reapply_push_policy` */
  function Reapplied(db: Db): Db {
    db.(links := map k | k in db.links ::
          if IsLocal(db.repos, k.0) && Judged(db.manifests, k.1)
          then db.links[k].(block := PushVerdict(db.findings, db.policy, k.1)) else db.links[k])
  }

  function PolicySaved(db: Db, policy: Policy): Db { Reapplied(db.(policy := policy)) }

  // ---------------------------------------------------------------------
  // Results and the KEV catalogue
  // ---------------------------------------------------------------------

  function Flagged(p: Parsed, kev: set<string>): Finding { Finding(p.vuln, p.severity, p.fixed, p.vuln in kev) }

  function FlaggedAll(report: seq<Parsed>, kev: set<string>): (r: seq<Finding>)
    ensures |r| == |report|
    ensures forall i | 0 <= i < |r| :: r[i] == Flagged(report[i], kev)
  {
    seq(|report|, i requires 0 <= i < |report| => Flagged(report[i], kev))
  }

  /** The tables just before the push policy is applied. */
  function Recorded(db: Db, j: JobId, report: seq<Parsed>): Db
    requires j in db.jobs && db.jobs[j].manifest in db.manifests
  {
    var m := db.jobs[j].manifest;
    var findings := FlaggedAll(report, db.kev);
    db.(scans := db.scans[db.nextId := m],
        nextId := db.nextId + 1,
        findings := db.findings[m := findings],
        manifests := db.manifests[m := db.manifests[m].(status := Scanned, kevCount := CountKev(findings))],
        jobs := db.jobs[j := db.jobs[j].(status := Done)])
  }

  function Ingested(db: Db, j: JobId, report: seq<Parsed>): Db
    requires j in db.jobs && db.jobs[j].manifest in db.manifests
  {
    Applied(Recorded(db, j, report), db.jobs[j].manifest)
  }

  /** `scanner_result`: a report that does not parse, or is for a manifest that is
      gone, counts as a failed attempt. */
  function Reported(db: Db, j: JobId, worker: string, report: Option<seq<Parsed>>): Db {
    if !RunningFor(db.jobs, j, worker) then db
    else if report.Some? && db.jobs[j].manifest in db.manifests then Ingested(db, j, report.value)
    else FailedJob(db, j, true)
  }

  function Reflag(f: Finding, kev: set<string>): Finding { f.(kev := f.vuln in kev) }

  function ReflagAll(fs: seq<Finding>, kev: set<string>): (r: seq<Finding>)
    ensures |r| == |fs|
    ensures forall i | 0 <= i < |r| :: r[i] == Reflag(fs[i], kev)
  {
    seq(|fs|, i requires 0 <= i < |fs| => Reflag(fs[i], kev))
  }

  /** `reflag_kev` up to its last statement: every finding is flagged afresh and the
      count of every scanned manifest follows. */
  function Reflagged(db: Db, cves: set<string>): Db {
    var findings := map m | m in db.findings :: ReflagAll(db.findings[m], cves);
    db.(kev := cves,
        findings := findings,
        manifests := map m | m in db.manifests ::
          if db.manifests[m].status == Scanned
          then db.manifests[m].(kevCount := CountKev(FindingsOf(findings, m))) else db.manifests[m])
  }

  /** `refresh_kev`: entries that are not CVE ids are dropped, an empty catalogue is
      refused, and the push verdicts are judged again. */
  function KevRefreshed(db: Db, ids: set<string>): Db {
    var cves := set v | v in ids && IsCve(v);
    if cves == {} then db else Reapplied(Reflagged(db, cves))
  }

  /** `rescan`: an admin asks again for an image some repository holds. */
  ghost function Rescanned(db: Db, m: ManifestId, priority: int): Db {
    if m !in db.manifests || db.manifests[m].kind != Image || !(exists r :: (r, m) in db.links) then db
    else if db.manifests[m].status == Failed
    then Enqueued(db.(manifests := db.manifests[m := db.manifests[m].(status := Unscanned)]), m, priority)
    else Enqueued(db, m, priority)
  }

  /** `prune_jobs`: only finished jobs are dropped, here those among `stale`. */
  function Pruned(db: Db, stale: set<JobId>): Db {
    db.(jobs := map j | j in db.jobs && !(j in stale && !db.jobs[j].Active()) :: db.jobs[j])
  }

  // ---------------------------------------------------------------------
  // The operations on the session
  // ---------------------------------------------------------------------

  /** `enqueue` */
  method Enqueue(session: Session, m: ManifestId, priority: int)
    requires OneActiveJob(session.jobs)
    modifies session
    ensures session.Snapshot() == Enqueued(old(session.Snapshot()), m, priority)
  {
    if m !in session.manifests || session.manifests[m].kind != Image {
      return;
    }
    if exists j | j in session.jobs :: ActiveFor(session.jobs, j, m) {
      var j :| j in session.jobs && ActiveFor(session.jobs, j, m);
      if priority < session.jobs[j].priority && session.jobs[j].status == Waiting {
        session.jobs := session.jobs[j := session.jobs[j].(priority := priority)];
      }
      return;
    }
    session.jobs := session.jobs[session.nextId := Job(m, Waiting, 0, priority, None, 0)];
    session.nextId := session.nextId + 1;
    if session.manifests[m].status == Unscanned || session.manifests[m].status == Failed {
      session.manifests := session.manifests[m := session.manifests[m].(status := Queued)];
    }
  }

  /** The row `ORDER BY priority, id LIMIT 1` returns. */
  method FirstWaiting(jobs: map<JobId, Job>) returns (first: Option<JobId>)
    ensures first.Some? ==> IsNext(jobs, first.value)
    ensures first.None? ==> forall j | j in jobs :: jobs[j].status != Waiting
  {
    first := None;
    var left := jobs.Keys;
    while left != {}
      invariant left <= jobs.Keys
      invariant first.Some? ==> first.value in jobs && jobs[first.value].status == Waiting
      invariant forall i | i in jobs && i !in left && jobs[i].status == Waiting ::
                  first.Some? && Before(jobs, first.value, i)
      decreases left
    {
      var j :| j in left;
      if jobs[j].status == Waiting && (first.None? || Before(jobs, j, first.value)) {
        first := Some(j);
      }
      left := left - {j};
    }
  }

  /** `claim`, with the skips of `scanner_claim`. */
  method Claim(session: Session, worker: string, now: Time)
    modifies session
    ensures session.Snapshot() == Claimed(old(session.Snapshot()), worker, now)
  {
    if !session.policy.scanningEnabled {
      return;
    }
    session.jobs := map j | j in session.jobs ::
      if session.jobs[j].status == Running && session.jobs[j].leaseUntil < now
      then session.jobs[j].(status := Waiting, worker := None, leaseUntil := 0) else session.jobs[j];
    var next := FirstWaiting(session.jobs);
    if next.None? {
      return;
    }
    var j := next.value;
    NextIsUnique(session.jobs, j);
    var job := session.jobs[j];
    job := job.(status := Running, worker := Some(worker));
    job := job.(attempts := job.attempts + 1);
    job := job.(leaseUntil := now + LEASE);
    if job.manifest in session.manifests {
      var row := session.manifests[job.manifest];
      row := row.(status := Scanning);
      if row.kind != Image || TooBig(row, session.policy) {
        job := job.(status := Done);
        row := row.(status := NotApplicable);
      }
      session.manifests := session.manifests[job.manifest := row];
    } else {
      job := job.(status := Done);
    }
    session.jobs := session.jobs[j := job];
  }

  lemma NextIsUnique(jobs: map<JobId, Job>, j: JobId)
    requires IsNext(jobs, j)
    ensures forall i :: IsNext(jobs, i) ==> i == j
  {
  }

  /** `fail` */
  method Fail(session: Session, j: JobId, retry: bool)
    requires j in session.jobs
    modifies session
    ensures session.Snapshot() == FailedJob(old(session.Snapshot()), j, retry)
  {
    var job := session.jobs[j];
    var m := job.manifest;
    if job.attempts >= MAX_ATTEMPTS || !retry {
      session.jobs := session.jobs[j := job.(status := GivenUp)];
      if m in session.manifests {
        session.manifests := session.manifests[m := session.manifests[m].(status := Failed)];
      }
    } else {
      session.jobs := session.jobs[j := job.(status := Waiting, worker := None, leaseUntil := 0)];
      if m in session.manifests {
        if session.manifests[m].status == Scanning {
          session.manifests := session.manifests[m := session.manifests[m].(status := Queued)];
        } else {
          assert session.manifests == session.manifests[m := session.manifests[m]];
        }
      }
    }
  }

  /** `scanner_heartbeat` */
  method RenewLease(session: Session, j: JobId, worker: string, now: Time) returns (accepted: bool)
    modifies session`jobs
    ensures accepted <==> RunningFor(old(session.jobs), j, worker)
    ensures session.jobs == Renewed(old(session.Snapshot()), j, worker, now).jobs
  {
    if j !in session.jobs || session.jobs[j].status != Running {
      return false;
    }
    if worker != "" && session.jobs[j].worker != Some(worker) {
      return false;
    }
    session.jobs := session.jobs[j := session.jobs[j].(leaseUntil := now + LEASE)];
    return true;
  }

  /** `scanner_fail` */
  method TakeFailure(session: Session, j: JobId, worker: string, permanent: bool) returns (accepted: bool)
    modifies session
    ensures accepted <==> RunningFor(old(session.jobs), j, worker)
    ensures session.Snapshot() == ReportedFailure(old(session.Snapshot()), j, worker, permanent)
  {
    if !RunningFor(session.jobs, j, worker) {
      return false;
    }
    Fail(session, j, !permanent);
    return true;
  }

  /** `scanner_result` */
  method TakeResult(session: Session, j: JobId, worker: string, report: Option<seq<Parsed>>) returns (accepted: bool)
    requires forall v | v in session.kev :: IsCve(v)
    modifies session
    ensures accepted <==> RunningFor(old(session.jobs), j, worker)
    ensures session.Snapshot() == Reported(old(session.Snapshot()), j, worker, report)
  {
    if !RunningFor(session.jobs, j, worker) {
      return false;
    }
    if report.None? || session.jobs[j].manifest !in session.manifests {
      Fail(session, j, true);
    } else {
      Ingest(session, j, report.value);
    }
    return true;
  }

  /** `apply_push_policy` */
  method ApplyPushPolicy(session: Session, m: ManifestId)
    modifies session
    ensures session.Snapshot() == Applied(old(session.Snapshot()), m)
  {
    if !Judged(session.manifests, m) {
      return;
    }
    if !(exists k | k in session.links :: k.1 == m && IsLocal(session.repos, k.0)) {
      assert session.links == Applied(session.Snapshot(), m).links;
      return;
    }
    var verdict := RulesVerdict(FindingsOf(session.findings, m), session.policy, session.policy.push);
    session.links := map k | k in session.links ::
      if k.1 == m && IsLocal(session.repos, k.0) then session.links[k].(block := BlockOf(verdict)) else session.links[k];
  }

  /** Re-judging some of the images. */
  function ReappliedTo(db: Db, done: set<ManifestId>): Db {
    db.(links := map k | k in db.links ::
          if IsLocal(db.repos, k.0) && Judged(db.manifests, k.1) && k.1 in done
          then db.links[k].(block := PushVerdict(db.findings, db.policy, k.1)) else db.links[k])
  }

  lemma ReappliedOneMore(db: Db, done: set<ManifestId>, m: ManifestId)
    ensures Applied(ReappliedTo(db, done), m) == ReappliedTo(db, done + {m})
  {
    var mid := ReappliedTo(db, done);
    AppliedKeepsLinks(mid, m);
    var x, y := Applied(mid, m).links, ReappliedTo(db, done + {m}).links;
    forall k | k in db.links ensures x[k] == y[k] {
      assert PushVerdict(mid.findings, mid.policy, k.1) == PushVerdict(db.findings, db.policy, k.1);
    }
    assert x == y;
  }

  function PushedImages(db: Db): set<ManifestId> {
    set k | k in db.links && IsLocal(db.repos, k.0) && Judged(db.manifests, k.1) :: k.1
  }

  lemma ReappliedNoneAndAll(db: Db)
    ensures ReappliedTo(db, {}) == db
    ensures ReappliedTo(db, PushedImages(db)) == Reapplied(db)
  {
  }

  /** `reapply_push_policy`: one image at a time, in any order. */
  method ReapplyPushPolicy(session: Session)
    modifies session
    ensures session.Snapshot() == Reapplied(old(session.Snapshot()))
  {
    ghost var before := session.Snapshot();
    var left := set k | k in session.links && IsLocal(session.repos, k.0) && Judged(session.manifests, k.1) :: k.1;
    ghost var done := {};
    ReappliedNoneAndAll(before);
    while left != {}
      invariant done + left == PushedImages(before)
      invariant session.Snapshot() == ReappliedTo(before, done)
      decreases left
    {
      var m :| m in left;
      ApplyPushPolicy(session, m);
      ReappliedOneMore(before, done, m);
      left, done := left - {m}, done + {m};
    }
  }

  /** `put_policy`: the rules are stored, then every pushed image is judged again. */
  method PutPolicy(session: Session, policy: Policy)
    modifies session
    ensures session.Snapshot() == PolicySaved(old(session.Snapshot()), policy)
  {
    session.policy := policy;
    ReapplyPushPolicy(session);
  }

  /** `refresh_kev` with the feed's ids, and `reflag_kev`. */
  method RefreshCatalogue(session: Session, ids: set<string>) returns (accepted: bool)
    modifies session
    ensures accepted <==> exists v :: v in ids && IsCve(v)
    ensures session.Snapshot() == KevRefreshed(old(session.Snapshot()), ids)
  {
    var cves := set v | v in ids && IsCve(v);
    assert forall v :: v in cves <==> v in ids && IsCve(v);
    if cves == {} {
      return false;
    }
    var v :| v in cves;
    session.kev := cves;
    session.findings := map m | m in session.findings :: ReflagAll(session.findings[m], cves);
    session.manifests := map m | m in session.manifests ::
      if session.manifests[m].status == Scanned
      then session.manifests[m].(kevCount := CountKev(FindingsOf(session.findings, m))) else session.manifests[m];
    assert session.Snapshot() == Reflagged(old(session.Snapshot()), cves);
    ReapplyPushPolicy(session);
    return true;
  }

  /** The flags and the count `ingest` computes in one pass over the report. */
  method FlagFindings(report: seq<Parsed>, catalogue: set<string>) returns (findings: seq<Finding>, kevCount: nat)
    requires forall v | v in catalogue :: IsCve(v)
    ensures findings == FlaggedAll(report, catalogue)
    ensures kevCount == CountKev(findings)
  {
    // Only ids that look like CVEs are looked up; the catalogue holds no others.
    var asked := set p | p in report && IsCve(p.vuln) :: p.vuln;
    var kev := asked * catalogue;
    findings, kevCount := [], 0;
    for i := 0 to |report|
      invariant findings == FlaggedAll(report, catalogue)[..i]
      invariant kevCount == CountKev(findings)
    {
      assert report[i] in report;
      assert IsCve(report[i].vuln) ==> report[i].vuln in asked;
      var flagged := Flagged(report[i], kev);
      CountKevAppend(findings, flagged);
      findings := findings + [flagged];
      if flagged.kev {
        kevCount := kevCount + 1;
      }
    }
  }

  /** `ingest`, once the report has parsed. */
  method Ingest(session: Session, j: JobId, report: seq<Parsed>)
    requires j in session.jobs && session.jobs[j].manifest in session.manifests
    requires forall v | v in session.kev :: IsCve(v)
    modifies session
    ensures session.Snapshot() == Ingested(old(session.Snapshot()), j, report)
  {
    var m := session.jobs[j].manifest;
    var findings, kevCount := FlagFindings(report, session.kev);
    session.scans := session.scans[session.nextId := m];
    session.nextId := session.nextId + 1;
    session.findings := session.findings[m := findings];
    session.manifests := session.manifests[m := session.manifests[m].(status := Scanned, kevCount := kevCount)];
    session.jobs := session.jobs[j := session.jobs[j].(status := Done)];
    assert session.Snapshot() == Recorded(old(session.Snapshot()), j, report);
    ApplyPushPolicy(session, m);
  }

  lemma {:induction false} CountKevAppend(fs: seq<Finding>, f: Finding)
    ensures CountKev(fs + [f]) == CountKev(fs) + if f.kev then 1 else 0
  {
    if fs != [] {
      assert (fs + [f])[1..] == fs[1..] + [f];
      CountKevAppend(fs[1..], f);
    }
  }

  // ---------------------------------------------------------------------
  // What they keep
  // ---------------------------------------------------------------------

  /** Changing one row's scan status to anything but scanned only takes that row out
      of the reach of the verdict and KEV invariants. */
  lemma StatusLeavesScanned(db: Db, m: ManifestId, status: ScanStatus)
    requires Inv(db) && m in db.manifests && status != Scanned
    ensures var rows := db.manifests[m := db.manifests[m].(status := status)];
            && rows.Keys == db.manifests.Keys && DigestsUnique(rows)
            && KevAgrees(db.findings, db.kev, rows)
            && VerdictsAgree(db.repos, rows, db.links, db.findings, db.policy)
            && Provenance(db.repos, rows, db.links, db.served)
  {
    var rows := db.manifests[m := db.manifests[m].(status := status)];
    assert rows.Keys == db.manifests.Keys;
    forall x | x in rows ensures x == m || rows[x] == db.manifests[x] {
    }
  }

  /** A first job for a manifest that has none. */
  lemma NewJobCoheres(jobs: map<JobId, Job>, manifests: map<ManifestId, Manifest>, id: JobId, job: Job)
    requires JobsCoherent(jobs, manifests) && id !in jobs && job.manifest in manifests
    requires forall j :: !ActiveFor(jobs, j, job.manifest)
    requires job.status == Waiting && job.worker.None?
    ensures var row := manifests[job.manifest];
            JobsCoherent(jobs[id := job],
                         if row.status == Unscanned || row.status == Failed
                         then manifests[job.manifest := row.(status := Queued)] else manifests)
  {
    var row := manifests[job.manifest];
    var jobs' := jobs[id := job];
    var rows := if row.status == Unscanned || row.status == Failed
                then manifests[job.manifest := row.(status := Queued)] else manifests;
    forall m | m in rows && (rows[m].status == Queued || rows[m].status == Scanning)
      ensures exists j :: j in jobs' && jobs'[j].Active() && jobs'[j].manifest == m
    {
      if m == job.manifest {
        assert jobs'[id].Active();
      } else {
        var j :| j in jobs && jobs[j].Active() && jobs[j].manifest == m;
        assert jobs'[j] == jobs[j];
      }
    }
    forall a, b | a in jobs' && b in jobs' && jobs'[a].Active() && jobs'[b].Active() && jobs'[a].manifest == jobs'[b].manifest
      ensures a == b
    {
      assert !ActiveFor(jobs, a, job.manifest) && !ActiveFor(jobs, b, job.manifest);
    }
  }

  lemma FirstJobKeeps(db: Db, m: ManifestId, priority: int, after: Db)
    requires Inv(db) && m in db.manifests && db.manifests[m].kind == Image && !(exists j :: ActiveFor(db.jobs, j, m))
    requires after == Enqueued(db, m, priority)
    ensures Inv(after)
  {
    NewJobCoheres(db.jobs, db.manifests, db.nextId, Job(m, Waiting, 0, priority, None, 0));
    if db.manifests[m].status == Unscanned || db.manifests[m].status == Failed {
      StatusLeavesScanned(db, m, Queued);
    } else {
      assert after.manifests == db.manifests;
    }
  }

  lemma EnqueuedKeeps(db: Db, m: ManifestId, priority: int)
    requires Inv(db)
    ensures Inv(Enqueued(db, m, priority))
  {
    if m in db.manifests && db.manifests[m].kind == Image {
      if exists j :: ActiveFor(db.jobs, j, m) {
        forall j | ActiveFor(db.jobs, j, m) ensures Inv(Reprioritised(db, j, priority)) {
          PriorityKeeps(db, j, priority, Reprioritised(db, j, priority));
        }
      } else {
        FirstJobKeeps(db, m, priority, Enqueued(db, m, priority));
      }
    }
  }

  /** The job of the image `m` after asking for a scan: a waiting one gets the more
      urgent of the two priorities, a running one is left alone, a new one waits. */
  ghost predicate Requested(before: map<JobId, Job>, after: map<JobId, Job>, m: ManifestId, priority: int, j: JobId) {
    && ActiveFor(after, j, m)
    && (forall i | i in after && i != j :: i in before && after[i] == before[i])
    && (forall i | i in before :: i in after)
    && (if j !in before then after[j] == Job(m, Waiting, 0, priority, None, 0)
        else if before[j].status == Running then after[j] == before[j]
        else after[j] == before[j].(priority := if priority < before[j].priority then priority else before[j].priority))
  }

  lemma NewJobRequested(jobs: map<JobId, Job>, m: ManifestId, priority: int, id: JobId, after: map<JobId, Job>)
    requires OneActiveJob(jobs) && id !in jobs && forall i | i in jobs :: !ActiveFor(jobs, i, m)
    requires after == jobs[id := Job(m, Waiting, 0, priority, None, 0)]
    ensures OneActiveJob(after) && Requested(jobs, after, m, priority, id)
  {
    forall a, b | a in after && b in after && after[a].Active() && after[b].Active() && after[a].manifest == after[b].manifest
      ensures a == b
    {
      assert a != id && after[a].manifest == m ==> ActiveFor(jobs, a, m);
      assert b != id && after[b].manifest == m ==> ActiveFor(jobs, b, m);
    }
  }

  lemma OldJobRequested(jobs: map<JobId, Job>, m: ManifestId, priority: int, i: JobId, after: map<JobId, Job>)
    requires OneActiveJob(jobs) && ActiveFor(jobs, i, m)
    requires after == if priority < jobs[i].priority && jobs[i].status == Waiting
                      then jobs[i := jobs[i].(priority := priority)] else jobs
    ensures OneActiveJob(after) && Requested(jobs, after, m, priority, i)
  {
    assert after.Keys == jobs.Keys;
    assert forall j | j in jobs && j != i :: after[j] == jobs[j];
  }

  /** Asking for a scan of an image always leaves it exactly one job, and touches no
      other job. */
  lemma EnqueueMeans(db: Db, m: ManifestId, priority: int)
    requires OneActiveJob(db.jobs) && JobsSound(db.jobs, db.manifests.Keys, db.nextId)
    requires m in db.manifests && db.manifests[m].kind == Image
    ensures var after := Enqueued(db, m, priority).jobs;
            OneActiveJob(after) && exists j :: Requested(db.jobs, after, m, priority, j)
  {
    var after := Enqueued(db, m, priority);
    if exists i :: ActiveFor(db.jobs, i, m) {
      var i :| ActiveFor(db.jobs, i, m)
               && after == if priority < db.jobs[i].priority && db.jobs[i].status == Waiting then Reprioritised(db, i, priority) else db;
      OldJobRequested(db.jobs, m, priority, i, after.jobs);
    } else {
      NewJobRequested(db.jobs, m, priority, db.nextId, after.jobs);
    }
  }

  /** Rewriting job rows without changing whose they are or whether they are active. */
  lemma SameActivity(before: map<JobId, Job>, after: map<JobId, Job>, manifests: map<ManifestId, Manifest>)
    requires JobsCoherent(before, manifests) && after.Keys == before.Keys
    requires forall j | j in before :: after[j].Active() == before[j].Active() && after[j].manifest == before[j].manifest
    requires forall j | j in before :: after[j].status == Running ==>
               before[j].status == Running && after[j].worker == before[j].worker && after[j].attempts == before[j].attempts
    requires forall j | j in before :: after[j].status == Waiting ==> after[j].worker.None?
    ensures JobsCoherent(after, manifests)
  {
  }

  lemma PriorityKeeps(db: Db, j: JobId, priority: int, after: Db)
    requires Inv(db) && j in db.jobs && after == Reprioritised(db, j, priority)
    ensures Inv(after)
  {
    SameActivity(db.jobs, after.jobs, db.manifests);
  }

  lemma LapsedKeeps(db: Db, now: Time)
    requires Inv(db)
    ensures Inv(db.(jobs := Lapsed(db.jobs, now)))
  {
    SameActivity(db.jobs, Lapsed(db.jobs, now), db.manifests);
  }

  /** One job and its manifest's status change together. */
  predicate MovesTogether(job: Job, status: ScanStatus) {
    && (job.status == Running ==>
          job.worker.Some? && job.worker.value != "" && job.attempts > 0 && status == Scanning)
    && (job.status == Waiting ==> job.worker.None?)
    && (job.Active() ==> status != Unscanned && status != Failed)
    && (!job.Active() ==> status != Queued && status != Scanning)
  }

  lemma JobMoves(
    jobs: map<JobId, Job>, manifests: map<ManifestId, Manifest>, j: JobId, job: Job, row: Manifest)
    requires JobsCoherent(jobs, manifests) && j in jobs && jobs[j].Active() && job.manifest == jobs[j].manifest
    requires job.manifest in manifests && MovesTogether(job, row.status)
    ensures JobsCoherent(jobs[j := job], manifests[job.manifest := row])
  {
    var (jobs', rows) := (jobs[j := job], manifests[job.manifest := row]);
    forall m | m in rows && (rows[m].status == Queued || rows[m].status == Scanning)
      ensures exists i :: i in jobs' && jobs'[i].Active() && jobs'[i].manifest == m
    {
      if m == job.manifest {
        assert jobs'[j].Active();
      } else {
        var i :| i in jobs && jobs[i].Active() && jobs[i].manifest == m;
        assert jobs'[i] == jobs[i];
      }
    }
    forall a, b | a in jobs' && b in jobs' && jobs'[a].Active() && jobs'[b].Active() && jobs'[a].manifest == jobs'[b].manifest
      ensures a == b
    {
      assert jobs[a].Active() && jobs[b].Active();
    }
  }

  lemma JobMovesKeeps(db: Db, j: JobId, job: Job, status: ScanStatus, after: Db)
    requires Inv(db) && j in db.jobs && db.jobs[j].Active() && job.manifest == db.jobs[j].manifest
    requires MovesTogether(job, status) && status != Scanned && job.manifest in db.manifests
    requires after == Moved(db, j, job, status)
    ensures Inv(after)
  {
    JobMoves(db.jobs, db.manifests, j, job, db.manifests[job.manifest].(status := status));
    StatusLeavesScanned(db, job.manifest, status);
  }

  lemma TakenKeeps(db: Db, j: JobId, worker: string, now: Time, after: Db)
    requires Inv(db) && j in db.jobs && db.jobs[j].status == Waiting && worker != ""
    requires after == Taken(db, j, worker, now)
    ensures Inv(after)
  {
    var job := db.jobs[j];
    var running := job.(status := Running, worker := Some(worker), attempts := job.attempts + 1, leaseUntil := now + LEASE);
    if !Scannable(db, job.manifest) {
      JobMovesKeeps(db, j, running.(status := Done), NotApplicable, after);
    } else {
      JobMovesKeeps(db, j, running, Scanning, after);
    }
  }

  lemma ClaimedKeeps(db: Db, worker: string, now: Time)
    requires Inv(db) && worker != ""
    ensures Inv(Claimed(db, worker, now))
  {
    LapsedKeeps(db, now);
    var lapsed := db.(jobs := Lapsed(db.jobs, now));
    forall j | IsNext(lapsed.jobs, j) ensures Inv(Taken(lapsed, j, worker, now)) {
      TakenKeeps(lapsed, j, worker, now, Taken(lapsed, j, worker, now));
    }
  }

  lemma RenewedKeeps(db: Db, j: JobId, worker: string, now: Time)
    requires Inv(db)
    ensures Inv(Renewed(db, j, worker, now))
  {
    if RunningFor(db.jobs, j, worker) {
      SameActivity(db.jobs, db.jobs[j := db.jobs[j].(leaseUntil := now + LEASE)], db.manifests);
    }
  }

  lemma FailedJobKeeps(db: Db, j: JobId, retry: bool)
    requires Inv(db) && j in db.jobs && db.jobs[j].status == Running
    ensures Inv(FailedJob(db, j, retry))
  {
    var job := db.jobs[j];
    if job.attempts >= MAX_ATTEMPTS || !retry {
      JobMovesKeeps(db, j, job.(status := GivenUp), Failed, FailedJob(db, j, retry));
    } else {
      JobMovesKeeps(db, j, job.(status := Waiting, worker := None, leaseUntil := 0),
                    AfterRetry(db, job.manifest), FailedJob(db, j, retry));
    }
  }

  lemma AppliedKeepsLinks(db: Db, m: ManifestId)
    ensures var links := Applied(db, m).links;
            && links.Keys == db.links.Keys
            && Applied(db, m) == db.(links := links)
            && forall k | k in links :: links[k] ==
                 if k.1 == m && IsLocal(db.repos, k.0) && Judged(db.manifests, m)
                 then db.links[k].(block := PushVerdict(db.findings, db.policy, m)) else db.links[k]
  {
    if !Judged(db.manifests, m) {
      assert Applied(db, m) == db;
    }
  }

  /** Judging one image makes its own links agree and leaves the others alone. */
  lemma AppliedAgrees(db: Db, m: ManifestId)
    requires forall k | k in db.links && k.1 != m && IsLocal(db.repos, k.0) && Judged(db.manifests, k.1) ::
               db.links[k].block == PushVerdict(db.findings, db.policy, k.1)
    ensures VerdictsAgree(db.repos, db.manifests, Applied(db, m).links, db.findings, db.policy)
  {
  }

  lemma SameLinksKeep(db: Db, links: map<(RepoId, ManifestId), Link>)
    requires links.Keys == db.links.Keys
    requires LinksSound(db.links, db.held, db.repos.Keys, db.manifests.Keys)
    requires TagsLinked(db.tags, db.links) && Provenance(db.repos, db.manifests, db.links, db.served)
    ensures LinksSound(links, db.held, db.repos.Keys, db.manifests.Keys)
    ensures TagsLinked(db.tags, links) && Provenance(db.repos, db.manifests, links, db.served)
  {
  }

  /** Whatever the verdicts were, judging every image again restores them. */
  lemma ReappliedKeeps(db: Db)
    requires InvButVerdicts(db)
    ensures Inv(Reapplied(db))
  {
  }

  lemma AppliedKeeps(db: Db, m: ManifestId, after: Db)
    requires InvButVerdicts(db)
    requires forall k | k in db.links && k.1 != m && IsLocal(db.repos, k.0) && Judged(db.manifests, k.1) ::
               db.links[k].block == PushVerdict(db.findings, db.policy, k.1)
    requires after == Applied(db, m)
    ensures Inv(after)
  {
    AppliedAgrees(db, m);
    AppliedKeepsLinks(db, m);
    SameLinksKeep(db, Applied(db, m).links);
  }

  lemma PolicySavedKeeps(db: Db, policy: Policy)
    requires Inv(db)
    ensures Inv(PolicySaved(db, policy))
  {
  }

  /** A row scanned again: its count is the count of its new findings. */
  lemma ScannedKeepsKev(
    findings: map<ManifestId, seq<Finding>>, kev: set<string>, manifests: map<ManifestId, Manifest>,
    m: ManifestId, report: seq<Parsed>)
    requires KevAgrees(findings, kev, manifests) && m in manifests
    ensures var flagged := FlaggedAll(report, kev);
            KevAgrees(findings[m := flagged], kev,
                      manifests[m := manifests[m].(status := Scanned, kevCount := CountKev(flagged))])
  {
  }

  lemma RecordedKeepsScans(db: Db, j: JobId, report: seq<Parsed>)
    requires JobsCoherent(db.jobs, db.manifests) && KevAgrees(db.findings, db.kev, db.manifests)
    requires j in db.jobs && db.jobs[j].status == Running && db.jobs[j].manifest in db.manifests
    ensures var after := Recorded(db, j, report);
            && JobsCoherent(after.jobs, after.manifests)
            && KevAgrees(after.findings, after.kev, after.manifests)
  {
    var m := db.jobs[j].manifest;
    var count := CountKev(FlaggedAll(report, db.kev));
    JobMoves(db.jobs, db.manifests, j, db.jobs[j].(status := Done), db.manifests[m].(status := Scanned, kevCount := count));
    ScannedKeepsKev(db.findings, db.kev, db.manifests, m, report);
  }

  lemma RecordedKeepsRows(db: Db, j: JobId, report: seq<Parsed>)
    requires RowsSound(db) && j in db.jobs
    ensures RowsSound(Recorded(db, j, report))
  {
  }

  lemma RecordedKeeps(db: Db, j: JobId, report: seq<Parsed>, after: Db)
    requires InvButVerdicts(db) && j in db.jobs && db.jobs[j].status == Running
    requires after == Recorded(db, j, report)
    ensures InvButVerdicts(after)
  {
    RecordedKeepsRows(db, j, report);
    RecordedKeepsScans(db, j, report);
    RecordedKeepsProvenance(db, db.jobs[j].manifest, after.manifests);
  }

  lemma RecordedKeepsProvenance(db: Db, m: ManifestId, rows: map<ManifestId, Manifest>)
    requires Provenance(db.repos, db.manifests, db.links, db.served) && m in db.manifests && m in rows
    requires rows == db.manifests[m := rows[m]] && rows[m].digest == db.manifests[m].digest
    ensures Provenance(db.repos, rows, db.links, db.served)
  {
  }

  lemma IngestedKeeps(db: Db, j: JobId, report: seq<Parsed>)
    requires Inv(db) && j in db.jobs && db.jobs[j].status == Running
    ensures Inv(Ingested(db, j, report))
  {
    var m := db.jobs[j].manifest;
    var after := Recorded(db, j, report);
    RecordedKeeps(db, j, report, after);
    RecordedElsewhere(db, j, report, after);
    AppliedKeeps(after, m, Ingested(db, j, report));
  }

  lemma RecordedElsewhere(db: Db, j: JobId, report: seq<Parsed>, after: Db)
    requires VerdictsAgree(db.repos, db.manifests, db.links, db.findings, db.policy)
    requires j in db.jobs && db.jobs[j].manifest in db.manifests && after == Recorded(db, j, report)
    ensures var m := db.jobs[j].manifest;
            forall k | k in after.links && k.1 != m && IsLocal(after.repos, k.0) && Judged(after.manifests, k.1) ::
              after.links[k].block == PushVerdict(after.findings, after.policy, k.1)
  {
  }

  lemma ReportedKeeps(db: Db, j: JobId, worker: string, report: Option<seq<Parsed>>)
    requires Inv(db)
    ensures Inv(Reported(db, j, worker, report))
  {
    if RunningFor(db.jobs, j, worker) {
      match report
      case Some(r) => IngestedKeeps(db, j, r);
      case None => FailedJobKeeps(db, j, true);
    }
  }

  lemma ReflaggedKeeps(db: Db, cves: set<string>)
    requires InvButVerdicts(db) && forall v | v in cves :: IsCve(v)
    ensures InvButVerdicts(Reflagged(db, cves))
  {
    var after := Reflagged(db, cves);
    SameShapeKeeps(db, after.manifests);
    assert after.findings.Keys == db.findings.Keys;
    assert KevAgrees(after.findings, cves, after.manifests);
  }

  /** Rows that keep their digest and status keep what only reads those. */
  lemma SameShapeKeeps(db: Db, rows: map<ManifestId, Manifest>)
    requires JobsCoherent(db.jobs, db.manifests) && DigestsUnique(db.manifests)
    requires Provenance(db.repos, db.manifests, db.links, db.served)
    requires rows.Keys == db.manifests.Keys
    requires forall m | m in rows :: rows[m].status == db.manifests[m].status && rows[m].digest == db.manifests[m].digest
    ensures JobsCoherent(db.jobs, rows) && DigestsUnique(rows)
    ensures Provenance(db.repos, rows, db.links, db.served)
  {
  }

  lemma KevRefreshedKeeps(db: Db, ids: set<string>)
    requires Inv(db)
    ensures Inv(KevRefreshed(db, ids))
  {
    var cves := set v | v in ids && IsCve(v);
    if cves != {} {
      ReflaggedKeeps(db, cves);
      ReappliedKeeps(Reflagged(db, cves));
    }
  }

  /** A failed image has no job, so calling it unscanned again changes nothing. */
  lemma ResetCoheres(jobs: map<JobId, Job>, manifests: map<ManifestId, Manifest>, m: ManifestId)
    requires JobsCoherent(jobs, manifests) && m in manifests && manifests[m].status == Failed
    ensures JobsCoherent(jobs, manifests[m := manifests[m].(status := Unscanned)])
  {
  }

  lemma RescannedKeeps(db: Db, m: ManifestId, priority: int)
    requires Inv(db)
    ensures Inv(Rescanned(db, m, priority))
  {
    if m in db.manifests && db.manifests[m].kind == Image && db.manifests[m].status == Failed {
      var reset := db.(manifests := db.manifests[m := db.manifests[m].(status := Unscanned)]);
      StatusLeavesScanned(db, m, Unscanned);
      ResetCoheres(db.jobs, db.manifests, m);
      EnqueuedKeeps(reset, m, priority);
    } else {
      EnqueuedKeeps(db, m, priority);
    }
  }

  lemma PrunedKeeps(db: Db, stale: set<JobId>)
    requires Inv(db)
    ensures Inv(Pruned(db, stale))
  {
    var jobs := Pruned(db, stale).jobs;
    forall m | m in db.manifests && (db.manifests[m].status == Queued || db.manifests[m].status == Scanning)
      ensures exists j :: j in jobs && jobs[j].Active() && jobs[j].manifest == m
    {
      var j :| j in db.jobs && db.jobs[j].Active() && db.jobs[j].manifest == m;
      assert j in jobs;
    }
  }
}
