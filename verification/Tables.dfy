/**
 The tables of the image registry (backend/app/models.py), as one immutable value.
 A digest stands for the exact bytes that hash to it. Ids are never reused.
 */
module Tables {
  import opened Common
  import opened Gate

  type RepoId = nat
  type ManifestId = nat
  type JobId = nat
  type ScanId = nat
  type UpstreamId = nat
  type Digest = nat
  type Tag = string
  type Time = int

  datatype Repository = Repository(
    upstream: Option<UpstreamId>, isLocal: bool, pinned: bool, quarantined: bool, watched: set<Tag>)

  datatype RefType = BlobRef | ConfigRef | ManifestRef

  /** `attests`: an index entry that is a build attestation, not a platform. */
  datatype Ref = Ref(refType: RefType, digest: Digest, attests: bool)

  datatype Manifest = Manifest(
    digest: Digest, size: nat, kind: Kind, subject: Option<Digest>, upstream: Option<UpstreamId>,
    totalSize: nat, createdAt: Time, status: ScanStatus, kevCount: nat)

  datatype Link = Link(lastPulled: Time, block: Option<Reason>)

  datatype TagRow = TagRow(manifest: ManifestId, checkedAt: Time)

  datatype Blob = Blob(size: nat, isLocal: bool, createdAt: Time)

  datatype JobStatus = Waiting | Running | Done | GivenUp

  datatype Job = Job(
    manifest: ManifestId, status: JobStatus, attempts: nat, priority: int, worker: Option<string>, leaseUntil: Time)
  {
    predicate Active() { status == Waiting || status == Running }
  }

  datatype Db = Db(
    repos: map<RepoId, Repository>,
    manifests: map<ManifestId, Manifest>,
    refs: map<ManifestId, seq<Ref>>,
    links: map<(RepoId, ManifestId), Link>,
    tags: map<(RepoId, Tag), TagRow>,
    blobs: map<Digest, Blob>,
    held: set<(RepoId, Digest)>,
    jobs: map<JobId, Job>,
    scans: map<ScanId, ManifestId>,
    findings: map<ManifestId, seq<Finding>>,
    kev: set<string>,
    policy: Policy,
    nextId: nat,
    // What each upstream has sent us so far: part of the environment, read by no code.
    served: set<(UpstreamId, Digest)>)

  /** The database session every operation of the source takes: the same tables as
      fields that the operations update in place. */
  class Session {
    var repos: map<RepoId, Repository>
    var manifests: map<ManifestId, Manifest>
    var refs: map<ManifestId, seq<Ref>>
    var links: map<(RepoId, ManifestId), Link>
    var tags: map<(RepoId, Tag), TagRow>
    var blobs: map<Digest, Blob>
    var held: set<(RepoId, Digest)>
    var jobs: map<JobId, Job>
    var scans: map<ScanId, ManifestId>
    var findings: map<ManifestId, seq<Finding>>
    var kev: set<string>
    var policy: Policy
    var nextId: nat
    ghost var served: set<(UpstreamId, Digest)>

    ghost function Snapshot(): Db
      reads this
    {
      Db(repos, manifests, refs, links, tags, blobs, held, jobs, scans, findings, kev, policy, nextId, served)
    }
  }

  // ---------------------------------------------------------------------
  // Reading
  // ---------------------------------------------------------------------

  function FindingsOf(findings: map<ManifestId, seq<Finding>>, m: ManifestId): seq<Finding> {
    if m in findings then findings[m] else []
  }

  predicate HasDigest(manifests: map<ManifestId, Manifest>, d: Digest) {
    exists m :: m in manifests && manifests[m].digest == d
  }

  predicate RefersTo(refs: map<ManifestId, seq<Ref>>, m: ManifestId, t: RefType, d: Digest) {
    m in refs && exists i :: 0 <= i < |refs[m]| && refs[m][i].refType == t && refs[m][i].digest == d
  }

  predicate IsLocal(repos: map<RepoId, Repository>, r: RepoId) { r in repos && repos[r].isLocal }

  // ---------------------------------------------------------------------
  // What every reachable state satisfies
  // ---------------------------------------------------------------------

  // Rows point at rows that exist, digests are unique, ids are in use once.

  ghost predicate ReposSound(repos: map<RepoId, Repository>, nextId: nat) {
    forall r | r in repos :: r < nextId && (repos[r].isLocal <==> repos[r].upstream.None?)
  }

  ghost predicate DigestsUnique(manifests: map<ManifestId, Manifest>) {
    forall a, b | a in manifests && b in manifests && manifests[a].digest == manifests[b].digest :: a == b
  }

  ghost predicate ManifestsSound(manifests: map<ManifestId, Manifest>, refs: map<ManifestId, seq<Ref>>, nextId: nat) {
    refs.Keys == manifests.Keys && forall m | m in manifests :: m < nextId
  }

  ghost predicate JobsSound(jobs: map<JobId, Job>, manifests: set<ManifestId>, nextId: nat) {
    forall j | j in jobs :: j < nextId && jobs[j].manifest in manifests
  }

  ghost predicate ScansSound(
    scans: map<ScanId, ManifestId>, findings: map<ManifestId, seq<Finding>>, manifests: set<ManifestId>)
  {
    findings.Keys <= manifests && forall s | s in scans :: scans[s] in manifests
  }

  ghost predicate LinksSound(
    links: map<(RepoId, ManifestId), Link>, held: set<(RepoId, Digest)>,
    repos: set<RepoId>, manifests: set<ManifestId>)
  {
    && (forall k | k in links :: k.0 in repos && k.1 in manifests)
    && (forall h | h in held :: h.0 in repos)
  }

  ghost predicate RowsSound(db: Db) {
    && ReposSound(db.repos, db.nextId)
    && DigestsUnique(db.manifests)
    && ManifestsSound(db.manifests, db.refs, db.nextId)
    && JobsSound(db.jobs, db.manifests.Keys, db.nextId)
    && ScansSound(db.scans, db.findings, db.manifests.Keys)
    && LinksSound(db.links, db.held, db.repos.Keys, db.manifests.Keys)
  }

  /** Every tag's manifest is linked in the tag's own repository. */
  ghost predicate TagsLinked(tags: map<(RepoId, Tag), TagRow>, links: map<(RepoId, ManifestId), Link>) {
    forall k | k in tags :: (k.0, tags[k].manifest) in links
  }

  ghost predicate OneActiveJob(jobs: map<JobId, Job>) {
    forall a, b | a in jobs && b in jobs && jobs[a].Active() && jobs[b].Active()
                  && jobs[a].manifest == jobs[b].manifest :: a == b
  }

  /** At most one waiting or running job per manifest; a manifest shown as queued or
      scanning has one, a manifest shown as unscanned or failed has none; and what is
      being scanned is shown as scanning, unless it turned out not to be an image. */
  ghost predicate JobsCoherent(jobs: map<JobId, Job>, manifests: map<ManifestId, Manifest>) {
    && OneActiveJob(jobs)
    && (forall m | m in manifests && (manifests[m].status == Queued || manifests[m].status == Scanning) ::
          exists j :: j in jobs && jobs[j].Active() && jobs[j].manifest == m)
    && (forall j | j in jobs && jobs[j].Active() && jobs[j].manifest in manifests ::
          manifests[jobs[j].manifest].status != Unscanned && manifests[jobs[j].manifest].status != Failed)
    && (forall j | j in jobs && jobs[j].status == Running && jobs[j].manifest in manifests ::
          manifests[jobs[j].manifest].status == Scanning || manifests[jobs[j].manifest].status == NotApplicable)
    && (forall j | j in jobs && jobs[j].status == Running ::
          jobs[j].worker.Some? && jobs[j].worker.value != "" && jobs[j].attempts > 0)
    && (forall j | j in jobs && jobs[j].status == Waiting :: jobs[j].worker.None?)
  }

  predicate IsCve(v: string) { "CVE-" <= v }

  /** A finding's flag is catalogue membership, and a scanned manifest's count is the
      number of its flagged findings. */
  ghost predicate KevAgrees(
    findings: map<ManifestId, seq<Finding>>, kev: set<string>, manifests: map<ManifestId, Manifest>)
  {
    && (forall v | v in kev :: IsCve(v))
    && (forall m, i | m in findings && 0 <= i < |findings[m]| :: findings[m][i].kev <==> findings[m][i].vuln in kev)
    && (forall m | m in manifests && manifests[m].status == Scanned ::
          manifests[m].kevCount == CountKev(FindingsOf(findings, m)))
  }

  function BlockOf(v: Verdict): Option<Reason> { if v.Refused? then Some(v.reason) else None }

  function PushVerdict(findings: map<ManifestId, seq<Finding>>, policy: Policy, m: ManifestId): Option<Reason> {
    BlockOf(RulesVerdict(FindingsOf(findings, m), policy, policy.push))
  }

  predicate Judged(manifests: map<ManifestId, Manifest>, m: ManifestId) {
    m in manifests && manifests[m].kind == Image && manifests[m].status == Scanned
  }

  /** The cached push verdict of every scanned image linked in a local repository is
      the one the current rules, findings and flags give. */
  ghost predicate VerdictsAgree(
    repos: map<RepoId, Repository>, manifests: map<ManifestId, Manifest>,
    links: map<(RepoId, ManifestId), Link>, findings: map<ManifestId, seq<Finding>>, policy: Policy)
  {
    forall k | k in links && IsLocal(repos, k.0) && Judged(manifests, k.1) ::
      links[k].block == PushVerdict(findings, policy, k.1)
  }

  /** What an upstream repository links are bytes its own upstream has sent. */
  ghost predicate Provenance(
    repos: map<RepoId, Repository>, manifests: map<ManifestId, Manifest>,
    links: map<(RepoId, ManifestId), Link>, served: set<(UpstreamId, Digest)>)
  {
    forall k | k in links && k.0 in repos && k.1 in manifests && repos[k.0].upstream.Some? ::
      (repos[k.0].upstream.value, manifests[k.1].digest) in served
  }

  /** Everything but the cached push verdicts. */
  ghost predicate InvButVerdicts(db: Db) {
    && RowsSound(db)
    && TagsLinked(db.tags, db.links)
    && JobsCoherent(db.jobs, db.manifests)
    && KevAgrees(db.findings, db.kev, db.manifests)
    && Provenance(db.repos, db.manifests, db.links, db.served)
  }

  ghost predicate Inv(db: Db) {
    InvButVerdicts(db) && VerdictsAgree(db.repos, db.manifests, db.links, db.findings, db.policy)
  }

  function InitDb(policy: Policy): Db {
    Db(map[], map[], map[], map[], map[], map[], {}, map[], map[], map[], {}, policy, 0, {})
  }

  lemma InitHolds(policy: Policy)
    ensures Inv(InitDb(policy))
  {
  }
}
