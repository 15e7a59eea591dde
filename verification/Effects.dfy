/**
 What each transaction of the registry and the scan pipeline does, said on the rows
 themselves: which rows are written, with what in them, and which stay as they were.
 */
module Effects {
  import opened Common
  import opened Gate
  import opened Tables
  import opened Registry
  import opened Scanning
  import opened Push
  import opened Housekeeping

  // ---------------------------------------------------------------------
  // Storing and revalidating
  // ---------------------------------------------------------------------

  /** The index entry (of any index) that names the bytes calls them an attestation. */
  predicate CalledAttestation(body: Body, parent: Option<Ref>) {
    body.kind != Index && parent.Some? && parent.value.attests
  }

  predicate NamedAsAttestation(body: Body, d: Digest) {
    body.kind == Index && exists i :: 0 <= i < |body.refs| && body.refs[i].attests && body.refs[i].digest == d
  }

  /** Bytes stored already are not stored again; new ones get a row that holds what was
      parsed from them, who sent them and when, waiting for a scan exactly if they are
      an image. Of the old rows only those an index calls attestations change. */
  lemma StoredMeans(
    db: Db, body: Body, upstream: Option<UpstreamId>, parent: Option<Ref>, now: Time, after: Db, m: ManifestId)
    requires RowsSound(db) && (after, m) == Stored(db, body, upstream, parent, now)
    ensures m in after.manifests && after.manifests[m].digest == body.digest && m in after.refs
    ensures m in db.manifests <==> exists x :: x in db.manifests && db.manifests[x].digest == body.digest
    ensures m in db.manifests ==> after == db
    ensures m !in db.manifests ==> m == db.nextId && after.manifests.Keys == db.manifests.Keys + {m}
    ensures m !in db.manifests ==>
              var row := after.manifests[m];
              && row.size == body.size && row.totalSize == body.totalSize && row.subject == body.subject
              && row.upstream == upstream && row.createdAt == now && row.kevCount == 0 && after.refs[m] == body.refs
              && row.kind == (if CalledAttestation(body, parent) || NamedAsAttestation(body, body.digest)
                              then Attestation else body.kind)
              && row.status == (if row.kind == Image then Unscanned else NotApplicable)
    ensures m !in db.manifests ==>
              forall x | x in db.manifests ::
                && x in after.manifests && x in after.refs && after.refs[x] == db.refs[x]
                && after.manifests[x] == if NamedAsAttestation(body, db.manifests[x].digest)
                                         then db.manifests[x].(kind := Attestation, status := NotApplicable)
                                         else db.manifests[x]
    ensures after.repos == db.repos && after.links == db.links && after.tags == db.tags && after.jobs == db.jobs
    ensures after.findings == db.findings && after.kev == db.kev && after.held == db.held && after.blobs == db.blobs
  {
    if RowOf(db.manifests, body.digest).None? {
      assert forall x | x in db.manifests :: db.manifests[x].digest != body.digest;
      InsertedMeans(db.manifests, m, NewRow(body, upstream, parent, now), body);
    }
  }

  lemma InsertedMeans(manifests: map<ManifestId, Manifest>, m: ManifestId, row: Manifest, body: Body)
    requires m !in manifests
    ensures var after := InsertedRows(manifests, m, row, body);
            && after.Keys == manifests.Keys + {m}
            && after[m] == (if NamedAsAttestation(body, row.digest) then row.(kind := Attestation, status := NotApplicable) else row)
            && forall x | x in manifests ::
                 after[x] == if NamedAsAttestation(body, manifests[x].digest)
                             then manifests[x].(kind := Attestation, status := NotApplicable) else manifests[x]
  {
  }

  /** Whose link the row is under: a new one counts as pulled now and carries no
      verdict, one that is there stays as it is. */
  ghost predicate LinkedOnce(before: map<(RepoId, ManifestId), Link>, after: map<(RepoId, ManifestId), Link>, k: (RepoId, ManifestId), now: Time) {
    && k in after && after[k] == (if k in before then before[k] else Link(now, None))
    && forall x | x != k :: (x in after <==> x in before) && (x in before ==> after[x] == before[x])
  }

  lemma LinkedMeans(db: Db, repo: RepoId, m: ManifestId, now: Time, after: Db)
    requires after == Linked(db, repo, m, now)
    ensures LinkedOnce(db.links, after.links, (repo, m), now)
    ensures after == db.(links := after.links)
  {
    if (repo, m) in db.links {
      assert after == db;
    } else {
      assert after.links == db.links[(repo, m) := Link(now, None)];
    }
  }

  lemma FetchedMeans(db: Db, repo: RepoId, body: Body, parent: Option<Ref>, now: Time, after: Db, m: ManifestId)
    requires RowsSound(db) && IsUpstreamRepo(db, repo) && (after, m) == Fetched(db, repo, body, parent, now)
    ensures m in after.manifests && after.manifests[m].digest == body.digest
    ensures m !in db.manifests ==> after.manifests[m].upstream == db.repos[repo].upstream
    ensures LinkedOnce(db.links, after.links, (repo, m), now)
    ensures after.tags == db.tags && after.jobs == db.jobs
    ensures forall x | x in db.manifests :: x in after.manifests && after.manifests[x].digest == db.manifests[x].digest
  {
    var upstream := db.repos[repo].upstream;
    var sent := Sent(db, upstream.value, body.digest);
    var (stored, x) := Stored(sent, body, upstream, parent, now);
    assert RowsSound(sent) && sent == db.(served := sent.served) && x == m;
    StoredMeans(sent, body, upstream, parent, now, stored, m);
    LinkedMeans(stored, repo, m, now, after);
  }

  ghost predicate TagNames(db: Db, k: (RepoId, Tag), d: Digest, checkedAt: Time) {
    && k in db.tags && db.tags[k].checkedAt == checkedAt
    && db.tags[k].manifest in db.manifests && db.manifests[db.tags[k].manifest].digest == d
  }

  /** Some row holds the digest, linked in this repository or in an upstream one that
      has the same upstream. */
  ghost predicate HeldFrom(db: Db, repo: RepoId, d: Digest)
    requires repo in db.repos
  {
    exists m :: m in db.manifests && db.manifests[m].digest == d
      && ((repo, m) in db.links
          || exists r :: r in db.repos && (r, m) in db.links && !db.repos[r].isLocal && db.repos[r].upstream == db.repos[repo].upstream)
  }

  ghost predicate OtherTagsStay(db: Db, after: Db, k: (RepoId, Tag)) {
    forall x | x != k :: (x in after.tags <==> x in db.tags) && (x in db.tags ==> after.tags[x] == db.tags[x])
  }

  ghost predicate DigestsStay(db: Db, after: Db) {
    forall m | m in db.manifests :: m in after.manifests && after.manifests[m].digest == db.manifests[m].digest
  }

  /** What a revalidation does to the tag: the row names the digest the upstream gave,
      or the manifest it had when that was confirmed, as checked now; it goes when the
      upstream has none; and no other tag is touched. */
  lemma RevalidatedMeans(db: Db, repo: RepoId, tag: Tag, outcome: TagOutcome, now: Time, after: Db)
    requires RowsSound(db) && IsUpstreamRepo(db, repo) && after == Revalidated(db, repo, tag, outcome, now)
    ensures OtherTagsStay(db, after, (repo, tag)) && DigestsStay(db, after)
    ensures outcome.Confirmed? ==>
              if (repo, tag) in db.tags
              then (repo, tag) in after.tags && after.tags[(repo, tag)] == TagRow(db.tags[(repo, tag)].manifest, now)
              else after == db
    ensures outcome.Moved? ==>
              if HeldFrom(db, repo, outcome.digest) then TagNames(after, (repo, tag), outcome.digest, now) else after == db
    ensures outcome.Refetched? ==> TagNames(after, (repo, tag), outcome.body.digest, now)
    ensures outcome.Gone? ==> (repo, tag) !in after.tags
  {
    match outcome
    case Confirmed =>
      if (repo, tag) !in db.tags {
        assert after == db;
      }
    case Moved(d) => MovedMeans(db, repo, tag, d, now, after);
    case Refetched(body, parent) => RefetchedMeans(db, repo, tag, body, parent, now, after);
    case Gone =>
  }

  lemma RefetchedMeans(db: Db, repo: RepoId, tag: Tag, body: Body, parent: Option<Ref>, now: Time, after: Db)
    requires RowsSound(db) && IsUpstreamRepo(db, repo)
    requires after == Revalidated(db, repo, tag, TagOutcome.Refetched(body, parent), now)
    ensures OtherTagsStay(db, after, (repo, tag)) && DigestsStay(db, after)
    ensures TagNames(after, (repo, tag), body.digest, now)
  {
    var (fetched, m) := Fetched(db, repo, body, parent, now);
    FetchedMeans(db, repo, body, parent, now, fetched, m);
    assert after.tags == db.tags[(repo, tag) := TagRow(m, now)] && after.manifests == fetched.manifests;
  }

  lemma HeldFromMeans(db: Db, repo: RepoId, m: ManifestId)
    requires DigestsUnique(db.manifests) && m in db.manifests && repo in db.repos
    ensures HeldFrom(db, repo, db.manifests[m].digest) <==> Reusable(db.repos, db.links, repo, m)
  {
    if k :| k in db.links && k.1 == m && k.0 in db.repos && db.repos[k.0].upstream == db.repos[repo].upstream && !db.repos[k.0].isLocal {
      assert (k.0, m) in db.links;
    }
  }

  lemma MovedMeans(db: Db, repo: RepoId, tag: Tag, d: Digest, now: Time, after: Db)
    requires DigestsUnique(db.manifests) && IsUpstreamRepo(db, repo)
    requires after == Revalidated(db, repo, tag, TagOutcome.Moved(d), now)
    ensures OtherTagsStay(db, after, (repo, tag)) && after.manifests == db.manifests
    ensures if HeldFrom(db, repo, d) then TagNames(after, (repo, tag), d, now) else after == db
  {
    var known := RowOf(db.manifests, d);
    if known.Some? {
      HeldFromMeans(db, repo, known.value);
      if Reusable(db.repos, db.links, repo, known.value) {
        LinkedMeans(db, repo, known.value, now, Linked(db, repo, known.value, now));
      }
    }
  }

  // ---------------------------------------------------------------------
  // Pushing, uploading and deleting
  // ---------------------------------------------------------------------

  /** The repository can answer for the blob: it was uploaded here, or a manifest
      linked here names it, or a manifest that an index linked here lists. */
  ghost predicate CanAnswerFor(db: Db, repo: RepoId, d: Digest) {
    || (repo, d) in db.held
    || exists x, i :: x in db.refs && 0 <= i < |db.refs[x]| && db.refs[x][i].digest == d && ((repo, x) in db.links || ListedHere(db, repo, x))
  }

  ghost predicate ListedHere(db: Db, repo: RepoId, x: ManifestId) {
    x in db.manifests &&
    exists y, i :: (repo, y) in db.links && y in db.refs && 0 <= i < |db.refs[y]|
                   && db.refs[y][i].refType == ManifestRef && db.refs[y][i].digest == db.manifests[x].digest
  }

  lemma ChildHereMeans(db: Db, repo: RepoId, x: ManifestId)
    ensures ChildHere(db, repo, x) <==> ListedHere(db, repo, x)
  {
    if x in db.manifests {
      if y, i :| (repo, y) in db.links && y in db.refs && 0 <= i < |db.refs[y]|
                 && db.refs[y][i].refType == ManifestRef && db.refs[y][i].digest == db.manifests[x].digest {
        assert RefersTo(db.refs, (repo, y).1, ManifestRef, db.manifests[x].digest);
      }
      if k :| k in db.links && k.0 == repo && RefersTo(db.refs, k.1, ManifestRef, db.manifests[x].digest) {
        assert (repo, k.1) in db.links;
      }
    }
  }

  lemma BlobInRepoMeans(db: Db, repo: RepoId, d: Digest)
    ensures BlobInRepo(db, repo, d) <==> CanAnswerFor(db, repo, d)
  {
    forall x ensures ChildHere(db, repo, x) <==> ListedHere(db, repo, x) {
      ChildHereMeans(db, repo, x);
    }
    if x, i :| x in db.refs && 0 <= i < |db.refs[x]| && db.refs[x][i].digest == d && ((repo, x) in db.links || ListedHere(db, repo, x)) {
      assert Push.Names(db.refs, x, d);
    }
  }

  /** A push is accepted exactly when every child is linked here, and every layer and
      config has its file and is one the repository can answer for. */
  lemma PushAcceptedMeans(
    db: Db, repo: RepoId, tag: Option<Tag>, body: Body, files: set<Digest>, parent: Option<Ref>, now: Time)
    ensures var (after, m) := Pushed(db, repo, tag, body, files, parent, now);
            && (m.Some? <==> forall i | 0 <= i < |body.refs| ::
                  var ref := body.refs[i];
                  if ref.refType == ManifestRef
                  then exists c :: (repo, c) in db.links && c in db.manifests && db.manifests[c].digest == ref.digest
                  else ref.digest in files && CanAnswerFor(db, repo, ref.digest))
            && (m.None? ==> after == db)
  {
    forall i | 0 <= i < |body.refs| {
      BlobInRepoMeans(db, repo, body.refs[i].digest);
    }
  }

  /** A link after a push: pulled when it was, or now if it is new; with `judged`, the
      verdict it was given, otherwise the one it had. */
  predicate LinkAfter(before: map<(RepoId, ManifestId), Link>, k: (RepoId, ManifestId), judged: Option<Option<Reason>>, now: Time, after: Link) {
    var link := if k in before then before[k] else Link(now, None);
    after.lastPulled == link.lastPulled && after.block == if judged.Some? then judged.value else link.block
  }

  /** The verdict a push writes on a link: that of the push rules, on each link its
      image has in a local repository once it is scanned. */
  function VerdictFor(db: Db, m: ManifestId, scanned: bool, k: (RepoId, ManifestId)): Option<Option<Reason>> {
    if k.1 == m && IsLocal(db.repos, k.0) && scanned then Some(PushVerdict(db.findings, db.policy, m)) else None
  }

  /** An accepted push links the manifest here, tags it if a tag was given, and writes
      the verdict of the push rules. Nothing else about links and tags changes. */
  lemma PushedMeans(
    db: Db, repo: RepoId, tag: Option<Tag>, body: Body, files: set<Digest>, parent: Option<Ref>, now: Time, after: Db, m: ManifestId)
    requires RowsSound(db) && Pushed(db, repo, tag, body, files, parent, now) == (after, Some(m))
    ensures m in after.manifests && after.manifests[m].digest == body.digest && DigestsStay(db, after)
    ensures m !in db.manifests ==> after.manifests[m].upstream.None? && m in after.refs && after.refs[m] == body.refs
    ensures after.links.Keys == db.links.Keys + {(repo, m)}
    ensures forall k | k in after.links :: LinkAfter(db.links, k, VerdictFor(db, m, Judged(after.manifests, m), k), now, after.links[k])
    ensures after.tags == if tag.Some? then db.tags[(repo, tag.value) := TagRow(m, now)] else db.tags
  {
    var (stored, x) := Stored(db, body, None, parent, now);
    StoredMeans(db, body, None, parent, now, stored, m);
    StoredElsewhere(db, body, None, parent, now, stored);
    AcceptedMeans(stored, repo, tag, m, now, after);
    assert forall k :: VerdictFor(stored, m, Judged(after.manifests, m), k) == VerdictFor(db, m, Judged(after.manifests, m), k);
  }

  lemma AcceptedMeans(db: Db, repo: RepoId, tag: Option<Tag>, m: ManifestId, now: Time, after: Db)
    requires after == Accepted(db, repo, tag, m, now)
    ensures after.manifests == db.manifests && after.refs == db.refs
    ensures after.links.Keys == db.links.Keys + {(repo, m)}
    ensures forall k | k in after.links :: LinkAfter(db.links, k, VerdictFor(db, m, Judged(db.manifests, m), k), now, after.links[k])
    ensures after.tags == if tag.Some? then db.tags[(repo, tag.value) := TagRow(m, now)] else db.tags
  {
    var linked := Linked(db, repo, m, now);
    LinkedMeans(db, repo, m, now, linked);
    AppliedKeepsLinks(linked, m);
  }

  lemma StoredElsewhere(db: Db, body: Body, upstream: Option<UpstreamId>, parent: Option<Ref>, now: Time, after: Db)
    requires after == Stored(db, body, upstream, parent, now).0
    ensures after.policy == db.policy && after.kev == db.kev && after.scans == db.scans && after.served == db.served
  {
    if RowOf(db.manifests, body.digest).Some? {
      assert after == db;
    }
  }

  /** After an upload the repository can answer for the blob, whose row is local; it
      can answer for nothing else it could not before, and no other repository can
      for anything. */
  lemma UploadedMeans(db: Db, repo: RepoId, d: Digest, size: nat, now: Time, after: Db)
    requires repo in db.repos && after == BlobUploaded(db, repo, d, size, now)
    ensures d in after.blobs && after.blobs[d].isLocal
    ensures if d in db.blobs then after.blobs[d].size == db.blobs[d].size && after.blobs[d].createdAt == db.blobs[d].createdAt
            else after.blobs[d].size == size && after.blobs[d].createdAt == now
    ensures forall x | x != d :: (x in after.blobs <==> x in db.blobs) && (x in db.blobs ==> after.blobs[x] == db.blobs[x])
    ensures forall r, x :: BlobInRepo(after, r, x) <==> BlobInRepo(db, r, x) || (r == repo && x == d)
  {
    forall r, x ensures BlobInRepo(after, r, x) <==> BlobInRepo(db, r, x) || (r == repo && x == d) {
      SameContents(db, after, r, x);
    }
  }

  lemma SameContents(db: Db, after: Db, repo: RepoId, d: Digest)
    requires after.refs == db.refs && after.manifests == db.manifests
    requires forall x :: (repo, x) in after.links <==> (repo, x) in db.links
    ensures BlobInRepo(after, repo, d) <==> (repo, d) in after.held || BlobInRepo(db.(held := {}), repo, d)
    ensures BlobInRepo(db, repo, d) <==> (repo, d) in db.held || BlobInRepo(db.(held := {}), repo, d)
  {
    BlobInRepoMeans(db, repo, d);
    BlobInRepoMeans(after, repo, d);
    BlobInRepoMeans(db.(held := {}), repo, d);
    forall x ensures ListedHere(after, repo, x) <==> ListedHere(db, repo, x) {
    }
  }

  /** Deleting a manifest from a repository takes its link and its tags there. */
  lemma DeletedMeans(db: Db, repo: RepoId, d: Digest, after: Db)
    requires DigestsUnique(db.manifests) && after == ManifestDeleted(db, repo, d)
    ensures forall k :: k in after.links <==> k in db.links && !(k.0 == repo && k.1 in db.manifests && db.manifests[k.1].digest == d)
    ensures forall k | k in after.links :: after.links[k] == db.links[k]
    ensures forall t | t in after.tags :: t in db.tags && after.tags[t] == db.tags[t]
    ensures forall t | t in db.tags && t !in after.tags ::
              t.0 == repo && db.tags[t].manifest in db.manifests && db.manifests[db.tags[t].manifest].digest == d
    ensures after == db.(links := after.links, tags := after.tags)
  {
    var row := RowOf(db.manifests, d);
    if row.None? || (repo, row.value) !in db.links {
      assert after == db;
    } else {
      assert forall k | k in db.links && k.0 == repo && k.1 in db.manifests && db.manifests[k.1].digest == d :: k == (repo, row.value);
    }
  }

  /** A purge leaves nothing of a cached repository, and every other repository with
      exactly what it had; a local one is left alone. */
  lemma PurgedMeans(db: Db, repo: RepoId, after: Db)
    requires after == Purged(db, repo)
    ensures repo !in db.repos || db.repos[repo].isLocal ==> after == db
    ensures repo in db.repos && !db.repos[repo].isLocal ==>
              && repo !in after.repos
              && (forall k | k in after.links :: k.0 != repo) && (forall t | t in after.tags :: t.0 != repo)
              && (forall h | h in after.held :: h.0 != repo)
    ensures forall r | r != repo :: (r in after.repos <==> r in db.repos) && (r in db.repos ==> after.repos[r] == db.repos[r])
    ensures forall k: (RepoId, ManifestId) | k.0 != repo :: (k in after.links <==> k in db.links) && (k in db.links ==> after.links[k] == db.links[k])
    ensures forall t: (RepoId, Tag) | t.0 != repo :: (t in after.tags <==> t in db.tags) && (t in db.tags ==> after.tags[t] == db.tags[t])
    ensures forall h: (RepoId, Digest) | h.0 != repo :: h in after.held <==> h in db.held
  {
  }

  /** A repository comes with an id not used before, local exactly if it has no
      upstream, with no flag set; setting flags changes nothing else. */
  lemma RepositoriesMean(db: Db, upstream: Option<UpstreamId>, repo: RepoId, pinned: bool, quarantined: bool, watched: set<Tag>)
    requires RowsSound(db)
    ensures var after := RepoCreated(db, upstream);
            && after.repos.Keys == db.repos.Keys + {db.nextId} && db.nextId !in db.repos && after.nextId == db.nextId + 1
            && (forall r | r in db.repos :: after.repos[r] == db.repos[r])
            && after.repos[db.nextId] == Repository(upstream, upstream.None?, false, false, {})
            && after == db.(repos := after.repos, nextId := after.nextId)
    ensures var after := FlagsSet(db, repo, pinned, quarantined, watched);
            && after.repos.Keys == db.repos.Keys && after == db.(repos := after.repos)
            && (forall r | r in db.repos && r != repo :: after.repos[r] == db.repos[r])
            && (repo in db.repos ==>
                  after.repos[repo] == Repository(db.repos[repo].upstream, db.repos[repo].isLocal, pinned, quarantined, watched))
  {
    if repo !in db.repos {
      assert FlagsSet(db, repo, pinned, quarantined, watched) == db;
    }
  }

  /** A file that has a blob row keeps it; one that has none gets one. A pull moves only
      the time of its link. */
  lemma RecordsMean(db: Db, d: Digest, size: nat, isLocal: bool, repo: RepoId, m: ManifestId, now: Time)
    ensures var after := BlobRecorded(db, d, size, isLocal, now);
            && d in after.blobs && after.blobs[d] == (if d in db.blobs then db.blobs[d] else Blob(size, isLocal, now))
            && after == db.(blobs := db.blobs[d := after.blobs[d]])
    ensures var after := Touched(db, repo, m, now);
            && after.links.Keys == db.links.Keys && after == db.(links := after.links)
            && forall k | k in db.links ::
                 after.links[k] == if k == (repo, m) then db.links[k].(lastPulled := now) else db.links[k]
  {
    if d in db.blobs {
      assert db.blobs[d := db.blobs[d]] == db.blobs;
    }
    if (repo, m) !in db.links {
      assert Touched(db, repo, m, now) == db;
    }
  }

  // ---------------------------------------------------------------------
  // The queue
  // ---------------------------------------------------------------------

  /** The image waits for its first scan, or for another try, and nobody has it. */
  ghost predicate AwaitsScan(db: Db, m: ManifestId) {
    m in db.manifests && db.manifests[m].kind == Image && (db.manifests[m].status == Unscanned || db.manifests[m].status == Failed)
    && forall j | j in db.jobs :: !(db.jobs[j].Active() && db.jobs[j].manifest == m)
  }

  /** What asking for a scan shows: an unscanned or failed image as queued, if that
      gave it its first job; a scanned image stays scanned, and no other row changes. */
  lemma EnqueuedMeans(db: Db, m: ManifestId, priority: int, after: Db)
    requires after == Enqueued(db, m, priority)
    ensures after.manifests == if AwaitsScan(db, m) then db.manifests[m := db.manifests[m].(status := Queued)] else db.manifests
    ensures m !in db.manifests || db.manifests[m].kind != Image ==> after == db
    ensures after.findings == db.findings && after.kev == db.kev && after.links == db.links && after.tags == db.tags
  {
    if m !in db.manifests || db.manifests[m].kind != Image {
      assert after == db;
    } else if exists j :: ActiveFor(db.jobs, j, m) {
      RequestedAgain(db, m, priority, after);
    } else {
      FirstRequest(db, m, priority, after);
    }
  }

  lemma RequestedAgain(db: Db, m: ManifestId, priority: int, after: Db)
    requires m in db.manifests && db.manifests[m].kind == Image && exists j :: ActiveFor(db.jobs, j, m)
    requires after == Enqueued(db, m, priority)
    ensures after == db.(jobs := after.jobs)
  {
    var j :| ActiveFor(db.jobs, j, m) && (after == db || after == Reprioritised(db, j, priority));
    if after != db {
      assert after == db.(jobs := after.jobs);
    }
  }

  lemma FirstRequest(db: Db, m: ManifestId, priority: int, after: Db)
    requires m in db.manifests && db.manifests[m].kind == Image && !exists j :: ActiveFor(db.jobs, j, m)
    requires after == Enqueued(db, m, priority)
    ensures after.manifests == if AwaitsScan(db, m) then db.manifests[m := db.manifests[m].(status := Queued)] else db.manifests
    ensures after == db.(jobs := after.jobs, manifests := after.manifests, nextId := after.nextId)
  {
    assert forall j | j in db.jobs :: !ActiveFor(db.jobs, j, m);
  }

  /** A job a claim may take: one that waits, or whose lease ran out. */
  predicate Free(job: Job, now: Time) {
    job.status == Waiting || (job.status == Running && job.leaseUntil < now)
  }

  /** What a claim leaves of a job it does not take. */
  function LeftBehind(job: Job, now: Time): Job {
    if job.status == Running && job.leaseUntil < now then Job(job.manifest, Waiting, job.attempts, job.priority, None, 0) else job
  }

  predicate ScannedBy(db: Db, m: ManifestId) {
    m in db.manifests && db.manifests[m].kind == Image
    && (db.policy.maxScanBytes == 0 || db.manifests[m].totalSize <= db.policy.maxScanBytes)
  }

  /** The worker gets the job for 120 seconds, or it is done as no image to scan. */
  function HandedTo(job: Job, scanned: bool, worker: string, now: Time): Job {
    Job(job.manifest, if scanned then Running else Done, job.attempts + 1, job.priority, Some(worker), now + 120)
  }

  function WithStatus(manifests: map<ManifestId, Manifest>, m: ManifestId, status: ScanStatus): map<ManifestId, Manifest> {
    if m in manifests then manifests[m := manifests[m].(status := status)] else manifests
  }

  /** Of the free jobs the most urgent, and of those the oldest. */
  predicate FirstFree(jobs: map<JobId, Job>, j: JobId, now: Time) {
    && j in jobs && Free(jobs[j], now)
    && forall i | i in jobs && Free(jobs[i], now) ::
         jobs[j].priority < jobs[i].priority || (jobs[j].priority == jobs[i].priority && j <= i)
  }

  ghost predicate HandsOut(db: Db, after: Db, j: JobId, worker: string, now: Time) {
    FirstFree(db.jobs, j, now) &&
    var m := db.jobs[j].manifest;
    && after.jobs == (map i | i in db.jobs :: LeftBehind(db.jobs[i], now))[j := HandedTo(db.jobs[j], ScannedBy(db, m), worker, now)]
    && after.manifests == WithStatus(db.manifests, m, if ScannedBy(db, m) then Scanning else NotApplicable)
  }

  /** A claim hands out the first free job if there is one, and leaves every job that
      a worker has a lease on as it is. */
  lemma ClaimedMeans(db: Db, worker: string, now: Time, after: Db)
    requires after == Claimed(db, worker, now)
    ensures !db.policy.scanningEnabled ==> after == db
    ensures db.policy.scanningEnabled && (exists j :: j in db.jobs && Free(db.jobs[j], now)) ==>
              exists j :: HandsOut(db, after, j, worker, now)
    ensures db.policy.scanningEnabled && !(exists j :: j in db.jobs && Free(db.jobs[j], now)) ==>
              after.jobs == db.jobs && after.manifests == db.manifests
    ensures after.jobs.Keys == db.jobs.Keys
    ensures forall j | j in db.jobs && !Free(db.jobs[j], now) :: after.jobs[j] == db.jobs[j]
    ensures after == db.(jobs := after.jobs, manifests := after.manifests)
  {
    if db.policy.scanningEnabled {
      var lapsed := db.(jobs := Lapsed(db.jobs, now));
      if j :| IsNext(lapsed.jobs, j) {
        NextIsUnique(lapsed.jobs, j);
        assert after == Taken(lapsed, j, worker, now);
        TakenMeans(db, lapsed, j, worker, now, after);
      } else {
        NoneIsFree(db.jobs, now);
        assert after == lapsed;
      }
    } else {
      assert after == db;
    }
  }

  lemma TakenMeans(db: Db, lapsed: Db, j: JobId, worker: string, now: Time, after: Db)
    requires lapsed == db.(jobs := Lapsed(db.jobs, now)) && IsNext(lapsed.jobs, j) && after == Taken(lapsed, j, worker, now)
    ensures HandsOut(db, after, j, worker, now) && after.jobs.Keys == db.jobs.Keys
    ensures forall i | i in db.jobs && !Free(db.jobs[i], now) :: after.jobs[i] == db.jobs[i]
    ensures after == db.(jobs := after.jobs, manifests := after.manifests)
  {
    assert lapsed.jobs == map i | i in db.jobs :: LeftBehind(db.jobs[i], now);
    TakenWrites(lapsed, j, worker, now, after);
    NextIsFirst(db.jobs, now, j);
  }

  lemma NoneIsFree(jobs: map<JobId, Job>, now: Time)
    requires !exists j :: IsNext(Lapsed(jobs, now), j)
    ensures forall j | j in jobs :: !Free(jobs[j], now)
    ensures Lapsed(jobs, now) == jobs
  {
    var lapsed := Lapsed(jobs, now);
    NoneIsNext(lapsed);
    forall j | j in jobs ensures !Free(jobs[j], now) {
      assert lapsed[j].status != Waiting;
    }
  }

  lemma NextIsFirst(jobs: map<JobId, Job>, now: Time, j: JobId)
    requires IsNext(Lapsed(jobs, now), j)
    ensures FirstFree(jobs, j, now)
  {
    var lapsed := Lapsed(jobs, now);
    forall i | i in jobs && Free(jobs[i], now)
      ensures jobs[j].priority < jobs[i].priority || (jobs[j].priority == jobs[i].priority && j <= i)
    {
      assert lapsed[i].status == Waiting && Scanning.Before(lapsed, j, i);
    }
  }

  lemma TakenWrites(db: Db, j: JobId, worker: string, now: Time, after: Db)
    requires j in db.jobs && after == Taken(db, j, worker, now)
    ensures var m := db.jobs[j].manifest;
            && after.jobs == db.jobs[j := HandedTo(db.jobs[j], ScannedBy(db, m), worker, now)]
            && after.manifests == WithStatus(db.manifests, m, if ScannedBy(db, m) then Scanning else NotApplicable)
            && after == db.(jobs := after.jobs, manifests := after.manifests)
  {
    var scanned := ScannedBy(db, db.jobs[j].manifest);
    TakenMoves(db, j, worker, now);
    MovedWrites(db, j, HandedTo(db.jobs[j], scanned, worker, now), if scanned then Scanning else NotApplicable, after);
  }

  lemma TakenMoves(db: Db, j: JobId, worker: string, now: Time)
    requires j in db.jobs
    ensures var scanned := ScannedBy(db, db.jobs[j].manifest);
            Taken(db, j, worker, now) ==
            Scanning.Moved(db, j, HandedTo(db.jobs[j], scanned, worker, now), if scanned then Scanning else NotApplicable)
  {
  }

  lemma MovedWrites(db: Db, j: JobId, job: Job, status: ScanStatus, after: Db)
    requires after == Scanning.Moved(db, j, job, status)
    ensures after.jobs == db.jobs[j := job]
    ensures after.manifests == WithStatus(db.manifests, job.manifest, status)
    ensures after == db.(jobs := after.jobs, manifests := after.manifests)
  {
  }

  /** There is a next job whenever one is waiting. */
  lemma NoneIsNext(jobs: map<JobId, Job>)
    requires !exists j :: IsNext(jobs, j)
    ensures forall j | j in jobs :: jobs[j].status != Waiting
  {
    var waiting := set j | j in jobs && jobs[j].status == Waiting;
    forall j | j in jobs ensures jobs[j].status != Waiting {
      if jobs[j].status == Waiting {
        assert j in waiting;
        var least := LeastOf(jobs, waiting);
        assert IsNext(jobs, least);
      }
    }
  }

  lemma {:induction false} LeastOf(jobs: map<JobId, Job>, waiting: set<JobId>) returns (least: JobId)
    requires waiting <= jobs.Keys && waiting != {}
    ensures least in waiting && forall i | i in waiting :: Scanning.Before(jobs, least, i)
  {
    var some :| some in waiting;
    least := some;
    if waiting != {some} {
      var other := LeastOf(jobs, waiting - {some});
      if Scanning.Before(jobs, other, some) {
        least := other;
      }
    }
    forall i | i in waiting ensures Scanning.Before(jobs, least, i) {
      assert i == some || i in waiting - {some};
    }
  }

  /** A failed attempt: after three, or when told not to retry, the job and the image
      have failed; otherwise the job waits again and an image shown as being scanned is
      shown as queued. */
  lemma FailedMeans(db: Db, j: JobId, retry: bool, after: Db)
    requires j in db.jobs && after == FailedJob(db, j, retry)
    ensures var job, m := db.jobs[j], db.jobs[j].manifest;
            var over := job.attempts >= 3 || !retry;
            && after.jobs == db.jobs[j := if over then job.(status := GivenUp)
                                          else Job(m, Waiting, job.attempts, job.priority, None, 0)]
            && after.manifests == (if over then WithStatus(db.manifests, m, Failed)
                                   else if m in db.manifests && db.manifests[m].status == Scanning then WithStatus(db.manifests, m, Queued)
                                   else db.manifests)
            && after == db.(jobs := after.jobs, manifests := after.manifests)
  {
    var job := db.jobs[j];
    if job.attempts >= 3 || !retry {
      MovedWrites(db, j, job.(status := GivenUp), Failed, after);
    } else {
      MovedWrites(db, j, job.(status := Waiting, worker := None, leaseUntil := 0), AfterRetry(db, job.manifest), after);
      assert job.manifest in db.manifests && db.manifests[job.manifest].status != Scanning ==> after.manifests == db.manifests;
    }
  }

  /** A heartbeat gives the worker another 120 seconds and changes nothing else. */
  lemma RenewedMeans(db: Db, j: JobId, worker: string, now: Time, after: Db)
    requires after == Renewed(db, j, worker, now)
    ensures RunningFor(db.jobs, j, worker) ==>
              after == db.(jobs := db.jobs[j := db.jobs[j].(leaseUntil := now + 120)])
    ensures !RunningFor(db.jobs, j, worker) ==> after == db
  {
  }

  /** What is stored of one reported finding, with this catalogue. */
  predicate StoredAs(p: Parsed, kev: set<string>, f: Finding) {
    f.vuln == p.vuln && f.severity == p.severity && f.fixed == p.fixed && (f.kev <==> p.vuln in kev)
  }

  predicate StoresReport(report: seq<Parsed>, kev: set<string>, findings: seq<Finding>) {
    |findings| == |report| && forall i | 0 <= i < |report| :: StoredAs(report[i], kev, findings[i])
  }

  /** An accepted report becomes the image's findings, entry by entry, flagged by the
      catalogue; the image is scanned, the job done, and no other image's findings,
      row or job change. */
  lemma ReportedMeans(db: Db, j: JobId, worker: string, report: seq<Parsed>, after: Db)
    requires RunningFor(db.jobs, j, worker) && db.jobs[j].manifest in db.manifests
    requires after == Reported(db, j, worker, Some(report))
    ensures var m := db.jobs[j].manifest;
            && m in after.findings && StoresReport(report, db.kev, after.findings[m])
            && after.findings == db.findings[m := after.findings[m]]
            && m in after.manifests && after.manifests == db.manifests[m := after.manifests[m]]
            && after.manifests[m] == db.manifests[m].(status := Scanned, kevCount := |KevAt(after.findings[m], 0)|)
            && after.jobs == db.jobs[j := db.jobs[j].(status := Done)]
            && after.kev == db.kev && after.policy == db.policy && after.tags == db.tags
  {
    var m := db.jobs[j].manifest;
    var recorded := Recorded(db, j, report);
    AppliedKeepsLinks(recorded, m);
    KevCardinality(recorded.findings[m], 0);
    assert recorded.findings[m][0..] == recorded.findings[m];
  }

  /** A report that is refused changes nothing; one that does not parse, or whose image
      is gone, is a failed attempt. */
  lemma RejectedMeans(db: Db, j: JobId, worker: string, report: Option<seq<Parsed>>, after: Db)
    requires after == Reported(db, j, worker, report)
    ensures !RunningFor(db.jobs, j, worker) ==> after == db
    ensures RunningFor(db.jobs, j, worker) && (report.None? || db.jobs[j].manifest !in db.manifests) ==> after == FailedJob(db, j, true)
  {
  }

  /** Every finding is flagged by the new catalogue and otherwise what it was, and a
      scanned image counts its flagged findings. */
  ghost predicate ReadAgain(db: Db, after: Db) {
    && after.findings.Keys == db.findings.Keys && after.manifests.Keys == db.manifests.Keys
    && (forall m | m in db.findings :: SameFindings(db.findings[m], after.kev, after.findings[m]))
    && (forall m | m in db.manifests ::
          after.manifests[m] == if db.manifests[m].status == Scanned
                                then db.manifests[m].(kevCount := |KevAt(FindingsOf(after.findings, m), 0)|)
                                else db.manifests[m])
  }

  /** A catalogue refresh: with no CVE id in the feed nothing changes; otherwise the
      catalogue is the feed's CVE ids, and every image is read by it again. */
  lemma KevRefreshedMeans(db: Db, ids: set<string>, after: Db)
    requires after == KevRefreshed(db, ids)
    ensures (forall v | v in ids :: !("CVE-" <= v)) ==> after == db
    ensures (exists v :: v in ids && "CVE-" <= v) ==> (forall v :: v in after.kev <==> v in ids && "CVE-" <= v) && ReadAgain(db, after)
    ensures after.jobs == db.jobs && after.tags == db.tags
  {
    var cves := set v | v in ids && IsCve(v);
    if v :| v in ids && "CVE-" <= v {
      assert v in cves;
      var reflagged := Reflagged(db, cves);
      ReflaggedMeans(db, cves, reflagged);
      assert after == Reapplied(reflagged);
      assert ReadAgain(db, after);
    } else {
      assert cves == {};
      assert after == db;
    }
  }

  lemma ReflaggedMeans(db: Db, cves: set<string>, after: Db)
    requires after == Reflagged(db, cves)
    ensures ReadAgain(db, after) && after.kev == cves && after.jobs == db.jobs && after.tags == db.tags
  {
    forall m | m in db.manifests
      ensures CountKev(FindingsOf(after.findings, m)) == |KevAt(FindingsOf(after.findings, m), 0)|
    {
      var fs := FindingsOf(after.findings, m);
      KevCardinality(fs, 0);
      assert fs[0..] == fs;
    }
  }

  predicate SameFindings(before: seq<Finding>, kev: set<string>, after: seq<Finding>) {
    |after| == |before| && forall i | 0 <= i < |before| :: after[i] == before[i].(kev := before[i].vuln in kev)
  }

  /** An admin's rescan: an image that a repository holds waits for a scan. */
  lemma RescannedMeans(db: Db, m: ManifestId, priority: int, after: Db)
    requires after == Rescanned(db, m, priority)
    ensures m !in db.manifests || db.manifests[m].kind != Image || (forall r :: (r, m) !in db.links) ==> after == db
    ensures after.manifests == if (exists r :: (r, m) in db.links) && AwaitsScan(db, m)
                               then db.manifests[m := db.manifests[m].(status := Queued)]
                               else if (exists r :: (r, m) in db.links) && m in db.manifests && db.manifests[m].kind == Image && db.manifests[m].status == Failed
                               then db.manifests[m := db.manifests[m].(status := Unscanned)]
                               else db.manifests
    ensures after.findings == db.findings && after.kev == db.kev && after.tags == db.tags
  {
    if m in db.manifests && db.manifests[m].kind == Image && (exists r :: (r, m) in db.links) {
      if db.manifests[m].status == Failed {
        var reset := db.(manifests := db.manifests[m := db.manifests[m].(status := Unscanned)]);
        EnqueuedMeans(reset, m, priority, after);
      } else {
        EnqueuedMeans(db, m, priority, after);
      }
    } else {
      assert after == db;
    }
  }

  /** Pruning drops exactly the finished jobs among those it is given. */
  lemma PrunedMeans(db: Db, stale: set<JobId>, after: Db)
    requires after == Pruned(db, stale)
    ensures forall j :: j in after.jobs <==>
              j in db.jobs && (j !in stale || db.jobs[j].status == Waiting || db.jobs[j].status == Running)
    ensures forall j | j in after.jobs :: after.jobs[j] == db.jobs[j]
    ensures after == db.(jobs := after.jobs)
  {
  }
}
