/**
 Garbage collection, eviction and the orphan sweep of
 backend/app/docker/housekeeping.py, with the accounting of docker/registry.py.
 */
module Housekeeping {
  import opened Common
  import opened Gate
  import opened Tables
  import opened Registry
  import opened Push

  const GRACE: Time := 3600

  // ---------------------------------------------------------------------
  // Storage accounting
  // ---------------------------------------------------------------------

  ghost function Total(sizes: map<nat, nat>): nat {
    if sizes == map[] then 0
    else
      var k :| k in sizes;
      sizes[k] + Total(sizes - {k})
  }

  lemma {:induction false} TotalRemove(sizes: map<nat, nat>, k: nat)
    requires k in sizes
    ensures Total(sizes) == sizes[k] + Total(sizes - {k})
    decreases |sizes|
  {
    var j :| j in sizes && Total(sizes) == sizes[j] + Total(sizes - {j});
    if j != k {
      TotalRemove(sizes - {j}, k);
      TotalRemove(sizes - {k}, j);
      assert sizes - {j} - {k} == sizes - {k} - {j};
    }
  }

  function ManifestSizes(manifests: map<ManifestId, Manifest>): map<nat, nat> {
    map m | m in manifests :: manifests[m].size
  }

  function BlobSizes(blobs: map<Digest, Blob>): map<nat, nat> { map d | d in blobs :: blobs[d].size }

  /** `usage()["total_bytes"]` */
  ghost function Usage(blobs: map<Digest, Blob>, manifests: map<ManifestId, Manifest>): nat {
    Total(BlobSizes(blobs)) + Total(ManifestSizes(manifests))
  }

  lemma UsageWithout(blobs: map<Digest, Blob>, manifests: map<ManifestId, Manifest>, m: ManifestId, d: Digest)
    ensures m in manifests ==> Usage(blobs, manifests) == manifests[m].size + Usage(blobs, manifests - {m})
    ensures d in blobs ==> Usage(blobs, manifests) == blobs[d].size + Usage(blobs - {d}, manifests)
  {
    if m in manifests {
      TotalRemove(ManifestSizes(manifests), m);
      assert ManifestSizes(manifests - {m}) == ManifestSizes(manifests) - {m};
    }
    if d in blobs {
      TotalRemove(BlobSizes(blobs), d);
      assert BlobSizes(blobs - {d}) == BlobSizes(blobs) - {d};
    }
  }

  // ---------------------------------------------------------------------
  // What is garbage
  // ---------------------------------------------------------------------

  predicate IsLinked(links: map<(RepoId, ManifestId), Link>, m: ManifestId) { exists k :: k in links && k.1 == m }

  predicate ChildOfLinked(db: Db, d: Digest) {
    exists k :: k in db.links && RefersTo(db.refs, k.1, ManifestRef, d)
  }

  predicate SubjectLinked(db: Db, subject: Option<Digest>) {
    subject.Some? && exists k :: k in db.links && k.1 in db.manifests && db.manifests[k.1].digest == subject.value
  }

  /** Not linked, not a child of a linked index, not referring to a linked manifest,
      and past the grace hour. */
  predicate Dead(db: Db, m: ManifestId, now: Time) {
    && m in db.manifests
    && !IsLinked(db.links, m)
    && !ChildOfLinked(db, db.manifests[m].digest)
    && !SubjectLinked(db, db.manifests[m].subject)
    && db.manifests[m].createdAt < now - GRACE
  }

  predicate NamesBlob(refs: map<ManifestId, seq<Ref>>, x: ManifestId, d: Digest) {
    RefersTo(refs, x, BlobRef, d) || RefersTo(refs, x, ConfigRef, d)
  }

  predicate Orphaned(db: Db, d: Digest, now: Time) {
    && d in db.blobs && db.blobs[d].createdAt < now - GRACE
    && (forall x | x in db.refs :: !NamesBlob(db.refs, x, d))
    && (forall h | h in db.held :: h.1 != d)
  }

  function ScansWithout(scans: map<ScanId, ManifestId>, dead: set<ManifestId>): map<ScanId, ManifestId> {
    map s | s in scans && scans[s] !in dead :: scans[s]
  }

  function JobsWithout(jobs: map<JobId, Job>, dead: set<ManifestId>): map<JobId, Job> {
    map j | j in jobs && jobs[j].manifest !in dead :: jobs[j]
  }

  function TagsWithout(tags: map<(RepoId, Tag), TagRow>, dead: set<ManifestId>): map<(RepoId, Tag), TagRow> {
    map k | k in tags && tags[k].manifest !in dead :: tags[k]
  }

  /** Every row of the manifests in `dead` goes, wherever it is. */
  function Without(db: Db, dead: set<ManifestId>): Db {
    db.(manifests := db.manifests - dead,
        refs := db.refs - dead,
        findings := db.findings - dead,
        scans := ScansWithout(db.scans, dead),
        jobs := JobsWithout(db.jobs, dead),
        tags := TagsWithout(db.tags, dead))
  }

  function DeadSet(db: Db, now: Time): set<ManifestId> { set m | m in db.manifests && Dead(db, m, now) }

  function OrphanSet(db: Db, now: Time): set<Digest> { set d | d in db.blobs && Orphaned(db, d, now) }

  /** `_gc` */
  function Collected(db: Db, now: Time): Db {
    var kept := Without(db, DeadSet(db, now));
    kept.(blobs := kept.blobs - OrphanSet(kept, now))
  }

  lemma RowsWithoutOneMore(
    scans: map<ScanId, ManifestId>, jobs: map<JobId, Job>, tags: map<(RepoId, Tag), TagRow>,
    dead: set<ManifestId>, m: ManifestId)
    ensures ScansWithout(ScansWithout(scans, dead), {m}) == ScansWithout(scans, dead + {m})
    ensures JobsWithout(JobsWithout(jobs, dead), {m}) == JobsWithout(jobs, dead + {m})
    ensures TagsWithout(TagsWithout(tags, dead), {m}) == TagsWithout(tags, dead + {m})
    ensures ScansWithout(scans, {}) == scans && JobsWithout(jobs, {}) == jobs && TagsWithout(tags, {}) == tags
  {
  }

  lemma WithoutOneMore(db: Db, dead: set<ManifestId>, m: ManifestId)
    ensures Without(Without(db, dead), {m}) == Without(db, dead + {m})
    ensures Without(db, {}) == db
  {
    RowsWithoutOneMore(db.scans, db.jobs, db.tags, dead, m);
    assert db.manifests - dead - {m} == db.manifests - (dead + {m}) && db.manifests - {} == db.manifests;
    assert db.refs - dead - {m} == db.refs - (dead + {m}) && db.refs - {} == db.refs;
    assert db.findings - dead - {m} == db.findings - (dead + {m}) && db.findings - {} == db.findings;
  }

  /** Deletes every row of one manifest; what it frees is its own size. */
  method DeleteManifestRows(session: Session, m: ManifestId) returns (freed: nat)
    requires m in session.manifests
    modifies session
    ensures session.Snapshot() == Without(old(session.Snapshot()), {m})
    ensures Usage(old(session.blobs), old(session.manifests)) == freed + Usage(session.blobs, session.manifests)
  {
    UsageWithout(session.blobs, session.manifests, m, 0);
    freed := session.manifests[m].size;
    session.refs := session.refs - {m};
    session.findings := session.findings - {m};
    session.scans := ScansWithout(session.scans, {m});
    session.jobs := JobsWithout(session.jobs, {m});
    session.tags := TagsWithout(session.tags, {m});
    session.manifests := session.manifests - {m};
  }

  /** Where the first loop of `_gc` stands after `gone`. */
  ghost predicate CollectedSoFar(before: Db, now: Db, gone: set<ManifestId>, freed: nat) {
    && now == Without(before, gone)
    && Usage(before.blobs, before.manifests) == freed + Usage(now.blobs, now.manifests)
  }

  /** One round of it. */
  method CollectManifest(session: Session, m: ManifestId, ghost before: Db, ghost gone: set<ManifestId>, freed: nat)
    returns (total: nat)
    requires m in session.manifests && CollectedSoFar(before, session.Snapshot(), gone, freed)
    modifies session
    ensures CollectedSoFar(before, session.Snapshot(), gone + {m}, total)
    ensures session.manifests.Keys == old(session.manifests.Keys) - {m}
  {
    var size := DeleteManifestRows(session, m);
    WithoutOneMore(before, gone, m);
    total := freed + size;
  }

  /** The first half of `_gc`: the rows are chosen by one query and deleted one by one. */
  method CollectManifests(session: Session, now: Time) returns (removed: nat, freed: nat)
    modifies session
    ensures session.Snapshot() == Without(old(session.Snapshot()), DeadSet(old(session.Snapshot()), now))
    ensures removed == |DeadSet(old(session.Snapshot()), now)|
    ensures freed == Usage(old(session.blobs), old(session.manifests)) - Usage(session.blobs, session.manifests)
  {
    var left := SelectDead(session, now);
    WithoutOneMore(session.Snapshot(), {}, 0);
    removed, freed := CollectAll(session, left, session.Snapshot());
  }

  method CollectAll(session: Session, dead: set<ManifestId>, ghost before: Db) returns (removed: nat, freed: nat)
    requires dead <= session.manifests.Keys && CollectedSoFar(before, session.Snapshot(), {}, 0)
    modifies session
    ensures CollectedSoFar(before, session.Snapshot(), dead, freed)
    ensures removed == |dead|
  {
    removed, freed := 0, 0;
    var left := dead;
    ghost var gone: set<ManifestId> := {};
    while left != {}
      invariant Partition(dead, gone, left) && left <= session.manifests.Keys
      invariant CollectedSoFar(before, session.Snapshot(), gone, freed)
      invariant removed == |gone|
      decreases left
    {
      var m :| m in left;
      freed := CollectManifest(session, m, before, gone, freed);
      MoveOne(dead, gone, left, m);
      left, gone := left - {m}, gone + {m};
      removed := removed + 1;
    }
    assert gone == dead;
  }

  ghost predicate Partition(all: set<nat>, gone: set<nat>, left: set<nat>) { gone + left == all && gone !! left }

  lemma MoveOne(all: set<nat>, gone: set<nat>, left: set<nat>, m: nat)
    requires Partition(all, gone, left) && m in left
    ensures Partition(all, gone + {m}, left - {m}) && |gone + {m}| == |gone| + 1
  {
  }

  method DeleteBlobRow(session: Session, d: Digest) returns (freed: nat)
    requires d in session.blobs
    modifies session`blobs
    ensures session.blobs == old(session.blobs) - {d}
    ensures Usage(old(session.blobs), session.manifests) == freed + Usage(session.blobs, session.manifests)
  {
    UsageWithout(session.blobs, session.manifests, 0, d);
    freed := session.blobs[d].size;
    session.blobs := session.blobs - {d};
  }

  /** The second half: blob rows nothing names or holds any more. */
  method CollectBlobs(session: Session, now: Time) returns (removed: nat, freed: nat)
    modifies session`blobs
    ensures session.blobs == old(session.blobs) - OrphanSet(old(session.Snapshot()), now)
    ensures removed == |OrphanSet(old(session.Snapshot()), now)|
    ensures freed == Usage(old(session.blobs), session.manifests) - Usage(session.blobs, session.manifests)
  {
    var orphans := SelectOrphans(session, now);
    removed, freed := CollectRows(session, orphans);
  }

  method CollectRows(session: Session, orphans: set<Digest>) returns (removed: nat, freed: nat)
    requires orphans <= session.blobs.Keys
    modifies session`blobs
    ensures session.blobs == old(session.blobs) - orphans
    ensures removed == |orphans|
    ensures freed == Usage(old(session.blobs), session.manifests) - Usage(session.blobs, session.manifests)
  {
    ghost var before, usage := session.blobs, Usage(session.blobs, session.manifests);
    removed, freed := 0, 0;
    var left := orphans;
    ghost var gone: set<Digest> := {};
    assert before - gone == before;
    while left != {}
      invariant Partition(orphans, gone, left) && left <= session.blobs.Keys
      invariant session.blobs == before - gone
      invariant removed == |gone|
      invariant freed == usage - Usage(session.blobs, session.manifests)
      decreases left
    {
      var d :| d in left;
      var size := DeleteBlobRow(session, d);
      freed := freed + size;
      MoveOne(orphans, gone, left, d);
      assert before - gone - {d} == before - (gone + {d});
      left, gone := left - {d}, gone + {d};
      removed := removed + 1;
    }
    assert gone == orphans;
  }

  /** `_gc` */
  method Gc(session: Session, now: Time) returns (removedManifests: nat, removedBlobs: nat, freed: nat)
    modifies session
    ensures session.Snapshot() == Collected(old(session.Snapshot()), now)
    ensures removedManifests == |DeadSet(old(session.Snapshot()), now)|
    ensures freed == Usage(old(session.blobs), old(session.manifests)) - Usage(session.blobs, session.manifests)
  {
    var freedManifests, freedBlobs;
    removedManifests, freedManifests := CollectManifests(session, now);
    removedBlobs, freedBlobs := CollectBlobs(session, now);
    freed := freedManifests + freedBlobs;
  }

  method SelectDead(session: Session, now: Time) returns (dead: set<ManifestId>)
    ensures dead == DeadSet(session.Snapshot(), now)
  {
    var linked := set k | k in session.links :: k.1;
    var children := set x, i | x in linked && x in session.refs && 0 <= i < |session.refs[x]|
                               && session.refs[x][i].refType == ManifestRef :: session.refs[x][i].digest;
    var linkedDigests := set x | x in linked && x in session.manifests :: session.manifests[x].digest;
    dead := set m | m in session.manifests
                    && m !in linked
                    && session.manifests[m].digest !in children
                    && (session.manifests[m].subject.None? || session.manifests[m].subject.value !in linkedDigests)
                    && session.manifests[m].createdAt < now - GRACE;
    ghost var db := session.Snapshot();
    forall m | m in db.manifests
      ensures m in linked <==> IsLinked(db.links, m)
      ensures db.manifests[m].digest in children <==> ChildOfLinked(db, db.manifests[m].digest)
      ensures (db.manifests[m].subject.Some? && db.manifests[m].subject.value in linkedDigests)
              <==> SubjectLinked(db, db.manifests[m].subject)
    {
      if ChildOfLinked(db, db.manifests[m].digest) {
        var k :| k in db.links && RefersTo(db.refs, k.1, ManifestRef, db.manifests[m].digest);
        assert k.1 in linked;
      }
      if SubjectLinked(db, db.manifests[m].subject) {
        var k :| k in db.links && k.1 in db.manifests && db.manifests[k.1].digest == db.manifests[m].subject.value;
        assert k.1 in linked;
      }
    }
  }

  method SelectOrphans(session: Session, now: Time) returns (orphans: set<Digest>)
    ensures orphans == OrphanSet(session.Snapshot(), now)
  {
    var referenced := set x, i | x in session.refs && 0 <= i < |session.refs[x]|
                                 && session.refs[x][i].refType != ManifestRef :: session.refs[x][i].digest;
    var held := set h | h in session.held :: h.1;
    orphans := set d | d in session.blobs && d !in referenced && d !in held
                       && session.blobs[d].createdAt < now - GRACE;
    ghost var db := session.Snapshot();
    forall d ensures d in referenced <==> exists x :: x in db.refs && NamesBlob(db.refs, x, d) {
    }
  }

  // ---------------------------------------------------------------------
  // What collection guarantees
  // ---------------------------------------------------------------------

  /** Collection touches no tag and no link: a dead manifest has neither. */
  lemma CollectionKeepsTags(db: Db, now: Time)
    requires TagsLinked(db.tags, db.links)
    ensures Collected(db, now).tags == db.tags && Collected(db, now).links == db.links
  {
  }

  /** Some link keeps the manifest alive: its own, that of an index listing it, or that
      of the manifest it refers to. */
  ghost predicate KeptByLink(db: Db, m: ManifestId)
    requires m in db.manifests
  {
    || (exists r :: (r, m) in db.links)
    || (exists r, x, i :: (r, x) in db.links && x in db.refs && 0 <= i < |db.refs[x]|
                          && db.refs[x][i].refType == ManifestRef && db.refs[x][i].digest == db.manifests[m].digest)
    || (exists r, x :: (r, x) in db.links && x in db.manifests && db.manifests[m].subject == Some(db.manifests[x].digest))
  }

  lemma DeadMeans(db: Db, m: ManifestId, now: Time)
    requires m in db.manifests
    ensures Dead(db, m, now) <==> !KeptByLink(db, m) && db.manifests[m].createdAt < now - 3600
  {
    if IsLinked(db.links, m) {
      var k :| k in db.links && k.1 == m;
      assert (k.0, m) in db.links;
    }
    if ChildOfLinked(db, db.manifests[m].digest) {
      var k :| k in db.links && RefersTo(db.refs, k.1, ManifestRef, db.manifests[m].digest);
      assert (k.0, k.1) in db.links;
    }
    if SubjectLinked(db, db.manifests[m].subject) {
      var k :| k in db.links && k.1 in db.manifests && db.manifests[k.1].digest == db.manifests[m].subject.value;
      assert (k.0, k.1) in db.links;
    }
    if r, x, i :| (r, x) in db.links && x in db.refs && 0 <= i < |db.refs[x]|
                  && db.refs[x][i].refType == ManifestRef && db.refs[x][i].digest == db.manifests[m].digest {
      assert RefersTo(db.refs, (r, x).1, ManifestRef, db.manifests[m].digest);
    }
  }

  /** Some manifest, whether any link keeps it or not, lists the blob as a layer or as
      its config. */
  ghost predicate Listed(db: Db, d: Digest) {
    exists x, i :: x in db.refs && 0 <= i < |db.refs[x]| && db.refs[x][i].refType != ManifestRef && db.refs[x][i].digest == d
  }

  /** What may be collected, and nothing else, is: a manifest goes exactly when no link
      keeps it and it is past the grace hour, with its references, findings, scans and
      jobs; a blob row exactly when no surviving manifest lists it, no repository holds
      it, and it is past the grace hour. */
  lemma CollectionIsExact(db: Db, now: Time)
    requires ManifestsSound(db.manifests, db.refs, db.nextId)
    ensures var after := Collected(db, now);
            && (forall m | m in db.manifests :: m in after.manifests <==> KeptByLink(db, m) || db.manifests[m].createdAt >= now - 3600)
            && (forall m | m in after.manifests :: m in db.manifests && after.manifests[m] == db.manifests[m] && after.refs[m] == db.refs[m])
            && (forall d | d in db.blobs :: d in after.blobs <==>
                  Listed(after, d) || (exists r :: (r, d) in db.held) || db.blobs[d].createdAt >= now - 3600)
            && (forall d | d in after.blobs :: d in db.blobs && after.blobs[d] == db.blobs[d])
  {
    var after := Collected(db, now);
    forall m | m in db.manifests ensures m in after.manifests <==> KeptByLink(db, m) || db.manifests[m].createdAt >= now - 3600 {
      DeadMeans(db, m, now);
    }
    forall d | d in db.blobs
      ensures d in after.blobs <==> Listed(after, d) || (exists r :: (r, d) in db.held) || db.blobs[d].createdAt >= now - 3600
    {
      OrphanedMeans(Without(db, DeadSet(db, now)), d, now);
    }
  }

  lemma OrphanedMeans(db: Db, d: Digest, now: Time)
    requires d in db.blobs
    ensures Orphaned(db, d, now) <==> !Listed(db, d) && !(exists r :: (r, d) in db.held) && db.blobs[d].createdAt < now - 3600
  {
    if h :| h in db.held && h.1 == d {
      assert (h.0, d) in db.held;
    }
    if x, i :| x in db.refs && 0 <= i < |db.refs[x]| && db.refs[x][i].refType != ManifestRef && db.refs[x][i].digest == d {
      assert NamesBlob(db.refs, x, d);
    }
  }

  /** The rows that hang on a manifest go with it and no others do. */
  lemma CollectionTakesDependents(db: Db, now: Time)
    ensures var after := Collected(db, now);
            && (forall m :: m in after.findings <==> m in db.findings && (m in db.manifests ==> m in after.manifests))
            && (forall m | m in after.findings :: after.findings[m] == db.findings[m])
            && (forall j :: j in after.jobs <==> j in db.jobs && (db.jobs[j].manifest in db.manifests ==> db.jobs[j].manifest in after.manifests))
            && (forall j | j in after.jobs :: after.jobs[j] == db.jobs[j])
            && (forall s :: s in after.scans <==> s in db.scans && (db.scans[s] in db.manifests ==> db.scans[s] in after.manifests))
            && (forall s | s in after.scans :: after.scans[s] == db.scans[s])
  {
  }

  /** One pass is enough: run again at the same clock, it finds nothing. */
  lemma CollectionIsIdempotent(db: Db, now: Time)
    requires RowsSound(db)
    ensures Collected(Collected(db, now), now) == Collected(db, now)
  {
    NothingDeadLeft(db, now);
    NothingOrphanedLeft(db, now);
    NothingToCollect(Collected(db, now), now);
  }

  lemma NothingToCollect(db: Db, now: Time)
    requires forall m :: !Dead(db, m, now)
    requires forall d :: !Orphaned(db, d, now)
    ensures Collected(db, now) == db
  {
    WithoutOneMore(db, {}, 0);
    assert DeadSet(db, now) == {} && OrphanSet(db, now) == {};
    assert Without(db, {}) == db;
    assert db.blobs - {} == db.blobs;
  }

  lemma NothingOrphanedLeft(db: Db, now: Time)
    ensures forall d :: !Orphaned(Collected(db, now), d, now)
  {
  }

  lemma NothingDeadLeft(db: Db, now: Time)
    requires RowsSound(db)
    ensures forall m :: !Dead(Collected(db, now), m, now)
  {
  }

  /** Collection takes no blob from any repository: what each one can serve, through
      its links, its indexes' children or its uploads, is what it could serve before,
      and the row of every layer and config so named is still there. */
  lemma CollectionKeepsRepositories(db: Db, now: Time, repo: RepoId, d: Digest)
    requires RowsSound(db)
    ensures BlobInRepo(Collected(db, now), repo, d) <==> BlobInRepo(db, repo, d)
    ensures (repo, d) in db.held && d in db.blobs ==> d in Collected(db, now).blobs
    ensures forall x | x in db.refs && ((repo, x) in db.links || ChildHere(db, repo, x)) && NamesBlob(db.refs, x, d) ::
              d in db.blobs ==> d in Collected(db, now).blobs
  {
    var after := Collected(db, now);
    if d in db.blobs {
      NamedBlobsStay(db, now, d);
    }
    forall x | x in db.refs && ((repo, x) in db.links || ChildHere(db, repo, x))
      ensures x in after.refs && after.refs[x] == db.refs[x] && x in after.manifests
      ensures (repo, x) in after.links || ChildHere(after, repo, x)
    {
      ReachableSurvives(db, now, repo, x);
    }
    forall x | x in after.refs && ((repo, x) in after.links || ChildHere(after, repo, x))
      ensures x in db.refs && db.refs[x] == after.refs[x] && ((repo, x) in db.links || ChildHere(db, repo, x))
    {
      ReachableBefore(db, now, repo, x);
    }
    if BlobInRepo(db, repo, d) && (repo, d) !in db.held {
      var x :| x in db.refs && ((repo, x) in db.links || ChildHere(db, repo, x)) && Names(db.refs, x, d);
      assert Names(after.refs, x, d);
    }
    if BlobInRepo(after, repo, d) && (repo, d) !in db.held {
      var x :| x in after.refs && ((repo, x) in after.links || ChildHere(after, repo, x)) && Names(after.refs, x, d);
      assert Names(db.refs, x, d);
    }
  }

  lemma NamedBlobsStay(db: Db, now: Time, d: Digest)
    requires ManifestsSound(db.manifests, db.refs, db.nextId) && d in db.blobs
    ensures (exists x :: x in Collected(db, now).manifests && NamesBlob(db.refs, x, d)) || (exists h :: h in db.held && h.1 == d) ==>
              d in Collected(db, now).blobs
  {
  }

  lemma ReachableSurvives(db: Db, now: Time, repo: RepoId, x: ManifestId)
    requires RowsSound(db) && x in db.refs && ((repo, x) in db.links || ChildHere(db, repo, x))
    ensures var after := Collected(db, now);
            && x in after.refs && after.refs[x] == db.refs[x] && x in after.manifests
            && ((repo, x) in after.links || ChildHere(after, repo, x))
  {
  }

  lemma ReachableBefore(db: Db, now: Time, repo: RepoId, x: ManifestId)
    requires RowsSound(db)
    requires var after := Collected(db, now); x in after.refs && ((repo, x) in after.links || ChildHere(after, repo, x))
    ensures x in db.refs && db.refs[x] == Collected(db, now).refs[x] && ((repo, x) in db.links || ChildHere(db, repo, x))
  {
  }

  // ---------------------------------------------------------------------
  // Collection keeps the invariants
  // ---------------------------------------------------------------------

  lemma CollectedKeepsRows(db: Db, now: Time, after: Db)
    requires RowsSound(db) && after == Collected(db, now)
    ensures RowsSound(after)
  {
  }

  lemma CollectedKeepsJobs(db: Db, now: Time, after: Db)
    requires JobsCoherent(db.jobs, db.manifests) && after == Collected(db, now)
    ensures JobsCoherent(after.jobs, after.manifests)
  {
    forall m | m in after.manifests && (after.manifests[m].status == Queued || after.manifests[m].status == Scanning)
      ensures exists j :: j in after.jobs && after.jobs[j].Active() && after.jobs[j].manifest == m
    {
      var j :| j in db.jobs && db.jobs[j].Active() && db.jobs[j].manifest == m;
      assert j in after.jobs && after.jobs[j] == db.jobs[j];
    }
  }

  lemma CollectedKeepsVerdicts(db: Db, now: Time, after: Db)
    requires KevAgrees(db.findings, db.kev, db.manifests)
    requires VerdictsAgree(db.repos, db.manifests, db.links, db.findings, db.policy)
    requires Provenance(db.repos, db.manifests, db.links, db.served)
    requires after == Collected(db, now)
    ensures KevAgrees(after.findings, after.kev, after.manifests)
    ensures VerdictsAgree(after.repos, after.manifests, after.links, after.findings, after.policy)
    ensures Provenance(after.repos, after.manifests, after.links, after.served)
  {
    assert forall m | m in after.manifests :: FindingsOf(after.findings, m) == FindingsOf(db.findings, m);
  }

  lemma CollectedKeeps(db: Db, now: Time, after: Db)
    requires Inv(db) && after == Collected(db, now)
    ensures Inv(after)
  {
    CollectionKeepsTags(db, now);
    CollectedKeepsRows(db, now, after);
    CollectedKeepsJobs(db, now, after);
    CollectedKeepsVerdicts(db, now, after);
  }

  // ---------------------------------------------------------------------
  // Eviction
  // ---------------------------------------------------------------------

  const CANDIDATE_LIMIT := 2000

  predicate Evictable(db: Db, k: (RepoId, ManifestId)) {
    && k in db.links && k.0 in db.repos && k.1 in db.manifests
    && !db.repos[k.0].isLocal && !db.repos[k.0].pinned && db.manifests[k.1].upstream.Some?
  }

  /** What the candidate query returns: the least recently pulled evictable links. */
  ghost predicate IsCandidateList(db: Db, ks: seq<(RepoId, ManifestId)>) {
    && |ks| <= CANDIDATE_LIMIT
    && (forall i | 0 <= i < |ks| :: Evictable(db, ks[i]))
    && (forall i, j | 0 <= i < j < |ks| :: ks[i] != ks[j] && db.links[ks[i]].lastPulled <= db.links[ks[j]].lastPulled)
    && (forall k | Evictable(db, k) && k !in ks ::
          |ks| == CANDIDATE_LIMIT && db.links[ks[|ks| - 1]].lastPulled <= db.links[k].lastPulled)
  }

  predicate Watched(db: Db, k: (RepoId, ManifestId)) {
    k.0 in db.repos && exists t :: t in db.tags && t.0 == k.0 && t.1 in db.repos[k.0].watched && db.tags[t].manifest == k.1
  }

  /** `_unique_bytes`: upstream blobs nothing else names, and the manifest itself. */
  ghost function UniqueBytes(db: Db, m: ManifestId): nat {
    Total(map d | d in db.blobs && !db.blobs[d].isLocal && Push.Names(db.refs, m, d)
                  && (forall x | x in db.refs :: Push.Names(db.refs, x, d) ==> x == m) :: db.blobs[d].size)
    + if m in db.manifests then db.manifests[m].size else 0
  }

  /** The cached blobs some manifest names. */
  function CachedNamed(blobs: map<Digest, Blob>, refs: map<ManifestId, seq<Ref>>): map<nat, nat> {
    map d | d in blobs && !blobs[d].isLocal && (exists x | x in refs :: Push.Names(refs, x, d)) :: blobs[d].size
  }

  /** What the manifests and the cached blobs they name take up. */
  ghost function NamedBytes(db: Db): nat { Total(CachedNamed(db.blobs, db.refs)) + Total(ManifestSizes(db.manifests)) }

  lemma {:induction false} TotalParts(all: map<nat, nat>, part: map<nat, nat>)
    requires forall k | k in part :: k in all && all[k] == part[k]
    ensures Total(all) == Total(part) + Total(all - part.Keys)
    decreases |part|
  {
    if part == map[] {
      assert all - part.Keys == all;
    } else {
      var k :| k in part;
      TotalRemove(part, k);
      TotalRemove(all, k);
      DropBoth(all, part, k);
      TotalParts(all - {k}, part - {k});
    }
  }

  lemma DropBoth(all: map<nat, nat>, part: map<nat, nat>, k: nat)
    requires k in part && forall i | i in part :: i in all && all[i] == part[i]
    ensures forall i | i in part - {k} :: i in all - {k} && (all - {k})[i] == (part - {k})[i]
    ensures all - {k} - (part - {k}).Keys == all - part.Keys
    ensures |part - {k}| < |part|
  {
    assert |part| == |(part - {k})[k := part[k]]|;
  }

  lemma NoLongerNamed(blobs: map<Digest, Blob>, refs: map<ManifestId, seq<Ref>>, m: ManifestId)
    ensures var before, after := CachedNamed(blobs, refs), CachedNamed(blobs, refs - {m});
            && (forall d | d in after :: d in before && before[d] == after[d])
            && before - after.Keys ==
               map d | d in blobs && !blobs[d].isLocal && Push.Names(refs, m, d)
                       && (forall x | x in refs :: Push.Names(refs, x, d) ==> x == m) :: blobs[d].size
  {
    forall x, d | x != m ensures Push.Names(refs - {m}, x, d) <==> Push.Names(refs, x, d) {
    }
  }

  /** The estimate is what would no longer be taken up if the manifest were gone. */
  lemma UniqueBytesAreFreed(db: Db, m: ManifestId)
    requires m in db.manifests
    ensures UniqueBytes(db, m) == NamedBytes(db) - NamedBytes(db.(manifests := db.manifests - {m}, refs := db.refs - {m}))
  {
    var before, after := CachedNamed(db.blobs, db.refs), CachedNamed(db.blobs, db.refs - {m});
    NoLongerNamed(db.blobs, db.refs, m);
    TotalParts(before, after);
    TotalRemove(ManifestSizes(db.manifests), m);
    assert ManifestSizes(db.manifests - {m}) == ManifestSizes(db.manifests) - {m};
  }

  /** The links some candidates give up, and what they are estimated to free. */
  function Chosen(db: Db, ks: seq<(RepoId, ManifestId)>): set<(RepoId, ManifestId)> {
    set k | k in ks && !Watched(db, k)
  }

  ghost function Estimate(db: Db, ks: seq<(RepoId, ManifestId)>): nat {
    if ks == [] then 0
    else Estimate(db, ks[..|ks| - 1]) + if Watched(db, ks[|ks| - 1]) then 0 else UniqueBytes(db, ks[|ks| - 1].1)
  }

  /** Unlinking takes the links it is given and the tags on them, nothing else. */
  function AllUnlinked(db: Db, gone: set<(RepoId, ManifestId)>): Db {
    db.(tags := map t | t in db.tags && (t.0, db.tags[t].manifest) !in gone :: db.tags[t],
        links := db.links - gone)
  }

  lemma UnlinkedOneMore(db: Db, gone: set<(RepoId, ManifestId)>, k: (RepoId, ManifestId))
    ensures Unlinked(AllUnlinked(db, gone), k.0, k.1) == AllUnlinked(db, gone + {k})
    ensures AllUnlinked(db, {}) == db
  {
  }

  /** What eviction reads of a candidate is not changed by the ones unlinked before. */
  lemma CandidateUnchanged(db: Db, gone: set<(RepoId, ManifestId)>, k: (RepoId, ManifestId))
    requires k !in gone
    ensures Watched(AllUnlinked(db, gone), k) <==> Watched(db, k)
    ensures UniqueBytes(AllUnlinked(db, gone), k.1) == UniqueBytes(db, k.1)
  {
  }

  ghost predicate Distinct(ks: seq<(RepoId, ManifestId)>) { forall i, j | 0 <= i < j < |ks| :: ks[i] != ks[j] }

  /** The estimate only grows, so being below the target before the last candidate
      means being below it before every candidate. */
  lemma {:induction false} EstimateGrows(db: Db, ks: seq<(RepoId, ManifestId)>, i: nat)
    requires i <= |ks|
    ensures Estimate(db, []) == 0 <= Estimate(db, ks[..i]) <= Estimate(db, ks)
  {
    if i < |ks| {
      EstimateGrows(db, ks[..|ks| - 1], i);
      assert ks[..|ks| - 1][..i] == ks[..i];
    } else {
      assert ks[..i] == ks;
    }
  }

  /** `evict_to`: in order of last pull, until the running estimate reaches the
      target; `n` is how many candidates were looked at. */
  method EvictTo(session: Session, ks: seq<(RepoId, ManifestId)>, target: int) returns (evicted: nat, freed: nat, ghost n: nat)
    requires Distinct(ks)
    modifies session
    ensures n <= |ks|
    ensures session.Snapshot() == AllUnlinked(old(session.Snapshot()), Chosen(old(session.Snapshot()), ks[..n]))
    ensures evicted == |Chosen(old(session.Snapshot()), ks[..n])|
    ensures freed == Estimate(old(session.Snapshot()), ks[..n])
    ensures n < |ks| ==> Estimate(old(session.Snapshot()), ks[..n]) >= target
    ensures n > 0 ==> Estimate(old(session.Snapshot()), ks[..n - 1]) < target
  {
    ghost var before := session.Snapshot();
    evicted, freed, n := 0, 0, 0;
    UnlinkedOneMore(before, {}, (0, 0));
    for i := 0 to |ks|
      invariant n == i && Progress(before, session.Snapshot(), ks, i, evicted, freed)
      invariant i > 0 ==> Estimate(before, ks[..i - 1]) < target
    {
      if freed >= target {
        return;
      }
      evicted, freed := EvictNext(session, ks, i, evicted, freed, before);
      n := i + 1;
    }
    assert ks[..|ks|] == ks;
  }

  /** Where eviction stands after `i` candidates. */
  ghost predicate Progress(db: Db, now: Db, ks: seq<(RepoId, ManifestId)>, i: nat, evicted: nat, freed: nat) {
    && i <= |ks| && now == AllUnlinked(db, Chosen(db, ks[..i]))
    && evicted == |Chosen(db, ks[..i])| && freed == Estimate(db, ks[..i])
  }

  lemma MakeProgress(db: Db, now: Db, ks: seq<(RepoId, ManifestId)>, i: nat, evicted: nat, freed: nat)
    requires Progress(db, now, ks, i, evicted, freed) && i < |ks| && Distinct(ks)
    ensures if Watched(now, ks[i]) then Progress(db, now, ks, i + 1, evicted, freed)
            else Progress(db, Unlinked(now, ks[i].0, ks[i].1), ks, i + 1, evicted + 1, freed + UniqueBytes(now, ks[i].1))
  {
    var chosen := Chosen(db, ks[..i]);
    assert ks[..i + 1] == ks[..i] + [ks[i]];
    assert ks[i] !in ks[..i];
    assert Chosen(db, ks[..i + 1]) == if Watched(db, ks[i]) then chosen else chosen + {ks[i]};
    CandidateUnchanged(db, chosen, ks[i]);
    UnlinkedOneMore(db, chosen, ks[i]);
  }

  /** One round of the loop: a watched tag's link stays. */
  method EvictNext(session: Session, ks: seq<(RepoId, ManifestId)>, i: nat, evicted: nat, freed: nat, ghost before: Db)
    returns (evictedNow: nat, freedNow: nat)
    requires i < |ks| && Distinct(ks) && Progress(before, session.Snapshot(), ks, i, evicted, freed)
    modifies session
    ensures Progress(before, session.Snapshot(), ks, i + 1, evictedNow, freedNow)
  {
    evictedNow, freedNow := evicted, freed;
    MakeProgress(before, session.Snapshot(), ks, i, evicted, freed);
    var watched := IsWatched(session, ks[i]);
    if !watched {
      var bytes := EvictOne(session, ks[i]);
      freedNow := freed + bytes;
      evictedNow := evicted + 1;
    }
  }

  method EvictOne(session: Session, k: (RepoId, ManifestId)) returns (bytes: nat)
    modifies session
    ensures session.Snapshot() == Unlinked(old(session.Snapshot()), k.0, k.1)
    ensures bytes == UniqueBytes(old(session.Snapshot()), k.1)
  {
    bytes := MeasureUnique(session, k.1);
    session.tags := map t | t in session.tags && !(t.0 == k.0 && session.tags[t].manifest == k.1) :: session.tags[t];
    session.links := session.links - {k};
  }

  method IsWatched(session: Session, k: (RepoId, ManifestId)) returns (watched: bool)
    ensures watched <==> Watched(session.Snapshot(), k)
  {
    watched := k.0 in session.repos && exists t | t in session.tags ::
      t.0 == k.0 && t.1 in session.repos[k.0].watched && session.tags[t].manifest == k.1;
  }

  method MeasureUnique(session: Session, m: ManifestId) returns (bytes: nat)
    ensures bytes == UniqueBytes(session.Snapshot(), m)
  {
    var sizes := map d | d in session.blobs && !session.blobs[d].isLocal && Push.Names(session.refs, m, d)
                         && (forall x | x in session.refs :: Push.Names(session.refs, x, d) ==> x == m) :: session.blobs[d].size;
    bytes := SumOf(sizes);
    bytes := bytes + if m in session.manifests then session.manifests[m].size else 0;
  }

  method SumOf(sizes: map<nat, nat>) returns (sum: nat)
    ensures sum == Total(sizes)
  {
    sum := 0;
    var left := sizes;
    while left != map[]
      invariant sum + Total(left) == Total(sizes)
      decreases |left|
    {
      var k :| k in left;
      TotalRemove(left, k);
      sum := sum + left[k];
      left := left - {k};
    }
  }

  /** Eviction takes only fetched manifests out of cached repositories that are not
      pinned, and neither a watched tag nor a link that one names. */
  lemma EvictionIsSafe(db: Db, ks: seq<(RepoId, ManifestId)>, n: nat)
    requires TagsLinked(db.tags, db.links) && IsCandidateList(db, ks) && n <= |ks|
    ensures var after := AllUnlinked(db, Chosen(db, ks[..n]));
            && (forall k | k in db.links && k !in after.links ::
                  && k.0 in db.repos && !db.repos[k.0].isLocal && !db.repos[k.0].pinned
                  && k.1 in db.manifests && db.manifests[k.1].upstream.Some?
                  && forall tag | tag in db.repos[k.0].watched && (k.0, tag) in db.tags :: db.tags[(k.0, tag)].manifest != k.1)
            && (forall t | t in db.tags && t !in after.tags :: t.0 in db.repos && t.1 !in db.repos[t.0].watched)
            && (forall t | t in after.tags :: t in db.tags && after.tags[t] == db.tags[t])
            && (forall k | k in after.links :: k in db.links && after.links[k] == db.links[k])
            && after == db.(tags := after.tags, links := after.links)
  {
    var after := AllUnlinked(db, Chosen(db, ks[..n]));
    forall k | k in db.links && k !in after.links
      ensures k.0 in db.repos
      ensures forall tag | tag in db.repos[k.0].watched && (k.0, tag) in db.tags :: db.tags[(k.0, tag)].manifest != k.1
    {
      forall tag | tag in db.repos[k.0].watched && (k.0, tag) in db.tags ensures db.tags[(k.0, tag)].manifest != k.1 {
        assert (k.0, tag).0 == k.0 && (k.0, tag).1 == tag;
      }
    }
  }

  /** ... and takes no link pulled more recently than an evictable one it leaves. */
  lemma EvictionTakesOldest(db: Db, ks: seq<(RepoId, ManifestId)>, n: nat, gone: (RepoId, ManifestId), kept: (RepoId, ManifestId))
    requires IsCandidateList(db, ks) && n <= |ks| && gone in Chosen(db, ks[..n]) && gone in db.links
    requires kept in db.links && kept !in Chosen(db, ks[..n]) && Evictable(db, kept) && !Watched(db, kept)
    ensures db.links[gone].lastPulled <= db.links[kept].lastPulled
  {
  }

  lemma AllUnlinkedKeeps(db: Db, gone: set<(RepoId, ManifestId)>, after: Db)
    requires Inv(db) && after == AllUnlinked(db, gone)
    ensures Inv(after)
  {
  }

  // ---------------------------------------------------------------------
  // The orphan sweep
  // ---------------------------------------------------------------------

  const ORPHAN_BATCH := 500

  datatype StoredFile = StoredFile(digest: Digest, size: nat)

  /** Some table names the file: a blob row, a manifest, or (`others`) a stored SBOM
      or scan report. */
  predicate Known(blobs: map<Digest, Blob>, manifests: map<ManifestId, Manifest>, others: set<Digest>, d: Digest) {
    d in blobs || HasDigest(manifests, d) || d in others
  }

  predicate Holds(held: set<(RepoId, Digest)>, d: Digest) { exists h | h in held :: h.1 == d }

  /** A stored manifest names the file as a layer or config. */
  predicate NamedBy(db: Db, x: ManifestId, d: Digest) { x in db.manifests && NamesBlob(db.refs, x, d) }

  /** Some manifest names the file, or a repository holds it. */
  ghost predicate Wanted(db: Db, d: Digest) { Holds(db.held, d) || exists x :: NamedBy(db, x, d) }

  /** A row given back is local when the file is held, and otherwise as one of the
      manifests naming it was pushed or fetched. */
  ghost predicate MarkedRight(db: Db, d: Digest, isLocal: bool) {
    if Holds(db.held, d) then isLocal
    else exists x :: NamedBy(db, x, d) && (isLocal <==> db.manifests[x].upstream.None?)
  }

  ghost predicate DistinctFiles(files: seq<StoredFile>) {
    forall i, j | 0 <= i < j < |files| :: files[i].digest != files[j].digest
  }

  ghost predicate AmongFiles(files: seq<StoredFile>, d: Digest) { exists f :: f in files && f.digest == d }

  ghost predicate Adoptable(db: Db, others: set<Digest>, d: Digest) {
    !Known(db.blobs, db.manifests, others, d) && Wanted(db, d)
  }

  /** What the sweep has done after some of the files: those nothing knows or wants are
      deleted, those something wants have a row with their size, rightly marked. */
  ghost predicate Swept(db: Db, others: set<Digest>, files: seq<StoredFile>, blobs: map<Digest, Blob>, deleted: set<Digest>) {
    && (forall d :: d in deleted <==>
          AmongFiles(files, d) && !Known(db.blobs, db.manifests, others, d) && !Wanted(db, d))
    && (forall d | d in db.blobs :: d in blobs && blobs[d] == db.blobs[d])
    && (forall f | f in files && Adoptable(db, others, f.digest) :: f.digest in blobs && blobs[f.digest].size == f.size)
    && (forall d | d in blobs && d !in db.blobs ::
          AmongFiles(files, d) && Adoptable(db, others, d) && MarkedRight(db, d, blobs[d].isLocal))
  }

  ghost function Batches(files: seq<StoredFile>): nat { (|files| + ORPHAN_BATCH - 1) / ORPHAN_BATCH }

  ghost function BatchAt(files: seq<StoredFile>, k: nat): seq<StoredFile>
    requires k < Batches(files)
  {
    var end := if (k + 1) * ORPHAN_BATCH < |files| then (k + 1) * ORPHAN_BATCH else |files|;
    files[k * ORPHAN_BATCH..end]
  }

  /** Every file is in exactly one batch, in order, and a batch is five hundred files or,
      for the last one, what is left. */
  lemma BatchesCover(files: seq<StoredFile>, i: nat, k: nat)
    requires i < |files| && k < Batches(files)
    ensures |BatchAt(files, k)| == (if 500 * (k + 1) <= |files| then 500 else |files| - 500 * k) > 0
    ensures i / 500 < Batches(files) && i % 500 < |BatchAt(files, i / 500)| && BatchAt(files, i / 500)[i % 500] == files[i]
  {
  }

  /** `_orphan_files`: each batch has a transaction of its own and sees the tables as
      they are by then. */
  method OrphanFiles(sessions: seq<Session>, files: seq<StoredFile>, others: seq<set<Digest>>, now: Time)
    returns (deleted: seq<set<Digest>>)
    requires DistinctFiles(files) && |sessions| == |others| == Batches(files)
    requires forall j, k | 0 <= j < k < |sessions| :: sessions[j] != sessions[k]
    modifies sessions
    ensures |deleted| == |sessions|
    ensures forall k | 0 <= k < |sessions| ::
      && Swept(old(sessions[k].Snapshot()), others[k], BatchAt(files, k), sessions[k].blobs, deleted[k])
      && sessions[k].Snapshot() == old(sessions[k].Snapshot()).(blobs := sessions[k].blobs)
  {
    deleted := [];
    var start := 0;
    while start < |files|
      invariant |deleted| <= |sessions| && start == (if |deleted| < |sessions| then |deleted| * ORPHAN_BATCH else |files|)
      invariant forall k | |deleted| <= k < |sessions| :: sessions[k].Snapshot() == old(sessions[k].Snapshot())
      invariant forall k | 0 <= k < |deleted| ::
        && Swept(old(sessions[k].Snapshot()), others[k], BatchAt(files, k), sessions[k].blobs, deleted[k])
        && sessions[k].Snapshot() == old(sessions[k].Snapshot()).(blobs := sessions[k].blobs)
      decreases |sessions| - |deleted|
    {
      ghost var k := |deleted|;
      var end := if start + ORPHAN_BATCH < |files| then start + ORPHAN_BATCH else |files|;
      assert files[start..end] == BatchAt(files, k);
      var gone := OrphanBatch(sessions[|deleted|], files[start..end], others[|deleted|], now);
      deleted := deleted + [gone];
      start := end;
    }
  }

  /** One batch: a file no table names is either given back its blob row, when something
      still wants it, or deleted. */
  method OrphanBatch(session: Session, batch: seq<StoredFile>, others: set<Digest>, now: Time) returns (deleted: set<Digest>)
    requires DistinctFiles(batch)
    modifies session`blobs
    ensures Swept(old(session.Snapshot()), others, batch, session.blobs, deleted)
  {
    ghost var db := session.Snapshot();
    deleted := {};
    for i := 0 to |batch|
      invariant session.Snapshot() == db.(blobs := session.blobs)
      invariant Swept(db, others, batch[..i], session.blobs, deleted)
    {
      var file := batch[i];
      SweptNext(db, others, batch, i, session.blobs, deleted);
      var known, wanted, isLocal := LookUp(session, others, file.digest, db);
      if !known {
        if wanted {
          session.blobs := session.blobs[file.digest := Blob(file.size, isLocal, now)];
        } else {
          deleted := deleted + {file.digest};
        }
      }
    }
    assert batch[..|batch|] == batch;
  }

  /** Of several manifests naming the file, the row the join returned last decides. */
  method LookUp(session: Session, others: set<Digest>, d: Digest, ghost db: Db) returns (known: bool, wanted: bool, isLocal: bool)
    requires session.Snapshot() == db.(blobs := session.blobs)
    ensures known <==> Known(session.blobs, session.manifests, others, d)
    ensures wanted <==> Wanted(db, d)
    ensures wanted ==> MarkedRight(db, d, isLocal)
  {
    known := d in session.blobs || HasDigest(session.manifests, d) || d in others;
    isLocal := Holds(session.held, d);
    wanted := isLocal;
    if x :| x in session.manifests && NamesBlob(session.refs, x, d) {
      assert NamedBy(db, x, d);
      wanted := true;
      isLocal := isLocal || session.manifests[x].upstream.None?;
    }
  }

  lemma SweptNext(db: Db, others: set<Digest>, files: seq<StoredFile>, i: nat, blobs: map<Digest, Blob>, deleted: set<Digest>)
    requires i < |files| && DistinctFiles(files) && Swept(db, others, files[..i], blobs, deleted)
    ensures var d := files[i].digest;
            && (Known(blobs, db.manifests, others, d) <==> Known(db.blobs, db.manifests, others, d))
            && (Known(db.blobs, db.manifests, others, d) ==> Swept(db, others, files[..i + 1], blobs, deleted))
            && (!Known(db.blobs, db.manifests, others, d) && !Wanted(db, d) ==>
                  Swept(db, others, files[..i + 1], blobs, deleted + {d}))
            && (forall row: Blob | Adoptable(db, others, d) && row.size == files[i].size && MarkedRight(db, d, row.isLocal) ::
                  Swept(db, others, files[..i + 1], blobs[d := row], deleted))
  {
    assert forall f :: f in files[..i + 1] <==> f in files[..i] || f == files[i];
    forall d: Digest
      ensures AmongFiles(files[..i + 1], d) <==> AmongFiles(files[..i], d) || d == files[i].digest
    {
      assert d == files[i].digest ==> files[i] in files[..i + 1];
    }
    assert !AmongFiles(files[..i], files[i].digest);
  }

  /** The sweep deletes no file a table names or a repository holds, leaves every file it
      looked at either recorded or gone, and no row it gave back is one the collector
      would take. */
  lemma SweepIsSafe(db: Db, others: set<Digest>, files: seq<StoredFile>, blobs: map<Digest, Blob>, deleted: set<Digest>, now: Time)
    requires Swept(db, others, files, blobs, deleted)
    ensures forall d | d in deleted :: !Known(blobs, db.manifests, others, d) && !Wanted(db, d)
    ensures forall f | f in files :: f.digest in deleted <==> !Known(blobs, db.manifests, others, f.digest)
    ensures forall d | d in blobs && d !in db.blobs :: !Orphaned(db.(blobs := blobs), d, now)
  {
    forall d | d in blobs && d !in db.blobs
      ensures !Orphaned(db.(blobs := blobs), d, now)
    {
      if !Holds(db.held, d) {
        var x :| NamedBy(db, x, d);
        assert x in db.refs;
      }
    }
  }

  /** When the manifests naming a file agree on where it came from, its row is local
      exactly when it is held or they were pushed. */
  lemma AdoptedIsLocal(db: Db, others: set<Digest>, files: seq<StoredFile>, blobs: map<Digest, Blob>, deleted: set<Digest>,
                       f: StoredFile, pushed: bool)
    requires Swept(db, others, files, blobs, deleted) && f in files && Adoptable(db, others, f.digest)
    requires forall x | NamedBy(db, x, f.digest) :: db.manifests[x].upstream.None? <==> pushed
    ensures f.digest in blobs
    ensures blobs[f.digest].isLocal <==> Holds(db.held, f.digest) || pushed
  {
  }
}
