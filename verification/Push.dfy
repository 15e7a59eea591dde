/**
 Pushing to and deleting from repositories: backend/app/docker/push.py, the purge of
 backend/app/api/docker_api.py and the repository and blob rows of docker/registry.py.
 */
module Push {
  import opened Common
  import opened Gate
  import opened Tables
  import opened Registry
  import opened Scanning

  // ---------------------------------------------------------------------
  // Which blobs a repository holds
  // ---------------------------------------------------------------------

  predicate Names(refs: map<ManifestId, seq<Ref>>, x: ManifestId, d: Digest) {
    x in refs && exists i :: 0 <= i < |refs[x]| && refs[x][i].digest == d
  }

  /** `x` is a child of an index linked in the repository. */
  predicate ChildHere(db: Db, repo: RepoId, x: ManifestId) {
    x in db.manifests && exists k :: k in db.links && k.0 == repo && RefersTo(db.refs, k.1, ManifestRef, db.manifests[x].digest)
  }

  /** `blob_in_repo`: uploaded here, or named by a manifest here or a child of one. */
  predicate BlobInRepo(db: Db, repo: RepoId, d: Digest) {
    || (repo, d) in db.held
    || exists x :: x in db.refs && ((repo, x) in db.links || ChildHere(db, repo, x)) && Names(db.refs, x, d)
  }

  /** What `put_manifest` demands of one reference. */
  ghost predicate Present(db: Db, repo: RepoId, files: set<Digest>, ref: Ref) {
    if ref.refType == ManifestRef then
      exists c :: c in db.manifests && db.manifests[c].digest == ref.digest && (repo, c) in db.links
    else ref.digest in files && BlobInRepo(db, repo, ref.digest)
  }

  ghost predicate AllPresent(db: Db, repo: RepoId, files: set<Digest>, refs: seq<Ref>) {
    forall i | 0 <= i < |refs| :: Present(db, repo, files, refs[i])
  }

  // ---------------------------------------------------------------------
  // What each transaction leaves behind
  // ---------------------------------------------------------------------

  /** The tables after an accepted push of bytes whose row, new or old, is `m`. */
  ghost function Accepted(stored: Db, repo: RepoId, tag: Option<Tag>, m: ManifestId, now: Time): Db {
    var judged := Applied(Linked(stored, repo, m, now), m);
    if tag.Some? then Tagged(judged, repo, tag.value, m, now) else judged
  }

  /** `put_manifest`: refused with nothing written when a reference is missing. */
  ghost function Pushed(
    db: Db, repo: RepoId, tag: Option<Tag>, body: Body, files: set<Digest>, parent: Option<Ref>, now: Time)
    : (Db, Option<ManifestId>)
  {
    if !AllPresent(db, repo, files, body.refs) then (db, None)
    else
      var (stored, m) := Stored(db, body, None, parent, now);
      (Accepted(stored, repo, tag, m, now), Some(m))
  }

  function RepoCreated(db: Db, upstream: Option<UpstreamId>): Db {
    db.(repos := db.repos[db.nextId := Repository(upstream, upstream.None?, false, false, {})], nextId := db.nextId + 1)
  }

  function FlagsSet(db: Db, repo: RepoId, pinned: bool, quarantined: bool, watched: set<Tag>): Db {
    if repo in db.repos
    then db.(repos := db.repos[repo := db.repos[repo].(pinned := pinned, quarantined := quarantined, watched := watched)])
    else db
  }

  /** `record_local_blob`, then `add_repo_blob`. */
  function BlobUploaded(db: Db, repo: RepoId, d: Digest, size: nat, now: Time): Db {
    if repo !in db.repos then db
    else db.(blobs := db.blobs[d := if d in db.blobs then db.blobs[d].(isLocal := true) else Blob(size, true, now)],
             held := db.held + {(repo, d)})
  }

  /** A blob row for a file that has none: a finished download, or one adopted later. */
  function BlobRecorded(db: Db, d: Digest, size: nat, isLocal: bool, now: Time): Db {
    if d in db.blobs then db else db.(blobs := db.blobs[d := Blob(size, isLocal, now)])
  }

  /** Taking a manifest out of a repository takes its tags there too. */
  function Unlinked(db: Db, repo: RepoId, m: ManifestId): Db {
    db.(tags := map k | k in db.tags && !(k.0 == repo && db.tags[k].manifest == m) :: db.tags[k],
        links := db.links - {(repo, m)})
  }

  ghost function ManifestDeleted(db: Db, repo: RepoId, d: Digest): Db {
    var row := RowOf(db.manifests, d);
    if row.Some? && (repo, row.value) in db.links then Unlinked(db, repo, row.value) else db
  }

  function TagDeleted(db: Db, repo: RepoId, tag: Tag): Db { db.(tags := db.tags - {(repo, tag)}) }

  function BlobDeleted(db: Db, repo: RepoId, d: Digest): Db { db.(held := db.held - {(repo, d)}) }

  /** `purge_repository`: local repositories are refused. */
  function Purged(db: Db, repo: RepoId): Db {
    if repo !in db.repos || db.repos[repo].isLocal then db
    else
      db.(tags := map k | k in db.tags && k.0 != repo :: db.tags[k],
          links := map k | k in db.links && k.0 != repo :: db.links[k],
          held := (set h | h in db.held && h.0 != repo),
          repos := db.repos - {repo})
  }

  function Touched(db: Db, repo: RepoId, m: ManifestId, now: Time): Db {
    if (repo, m) in db.links then db.(links := db.links[(repo, m) := db.links[(repo, m)].(lastPulled := now)]) else db
  }

  // ---------------------------------------------------------------------
  // The transactions
  // ---------------------------------------------------------------------

  /** `put_manifest` */
  method PutManifest(
    session: Session, repo: RepoId, tag: Option<Tag>, body: Body, files: set<Digest>, parent: Option<Ref>, now: Time)
    returns (m: Option<ManifestId>)
    requires DigestsUnique(session.manifests)
    modifies session
    ensures (session.Snapshot(), m) == Pushed(old(session.Snapshot()), repo, tag, body, files, parent, now)
  {
    var missing: seq<Digest> := [];
    ghost var before := session.Snapshot();
    for i := 0 to |body.refs|
      invariant session.Snapshot() == before
      invariant missing == [] <==> forall j | 0 <= j < i :: Present(before, repo, files, body.refs[j])
    {
      var here := FindRef(session, repo, files, body.refs[i]);
      if !here {
        missing := missing + [body.refs[i].digest];
      }
    }
    if missing != [] {
      return None;
    }
    var id := StoreManifest(session, body, None, parent, now);
    LinkManifest(session, repo, id, now);
    ApplyPushPolicy(session, id);
    if tag.Some? {
      SetTag(session, repo, tag.value, id, now);
    }
    return Some(id);
  }

  method FindRef(session: Session, repo: RepoId, files: set<Digest>, ref: Ref) returns (here: bool)
    ensures here <==> Present(session.Snapshot(), repo, files, ref)
  {
    if ref.refType == ManifestRef {
      here := exists c | c in session.manifests :: session.manifests[c].digest == ref.digest && (repo, c) in session.links;
    } else if ref.digest !in files {
      here := false;
    } else if (repo, ref.digest) in session.held {
      here := true;
    } else {
      here := exists x | x in session.refs ::
        ((repo, x) in session.links
         || (x in session.manifests && exists k | k in session.links ::
               k.0 == repo && RefersTo(session.refs, k.1, ManifestRef, session.manifests[x].digest)))
        && Names(session.refs, x, ref.digest);
    }
  }

  /** `delete_manifest` */
  method DeleteManifest(session: Session, repo: RepoId, d: Digest) returns (deleted: bool)
    requires DigestsUnique(session.manifests)
    modifies session
    ensures session.Snapshot() == ManifestDeleted(old(session.Snapshot()), repo, d)
    ensures deleted <==> exists m :: (repo, m) in old(session.links) && m in session.manifests && session.manifests[m].digest == d
  {
    if !HasDigest(session.manifests, d) {
      return false;
    }
    var m :| m in session.manifests && session.manifests[m].digest == d;
    if (repo, m) !in session.links {
      return false;
    }
    session.tags := map k | k in session.tags && !(k.0 == repo && session.tags[k].manifest == m) :: session.tags[k];
    session.links := session.links - {(repo, m)};
    return true;
  }

  /** `record_local_blob` and `add_repo_blob`, as a finished upload calls them. */
  method FinishUpload(session: Session, repo: RepoId, d: Digest, size: nat, now: Time)
    requires repo in session.repos
    modifies session
    ensures session.Snapshot() == BlobUploaded(old(session.Snapshot()), repo, d, size, now)
  {
    if d !in session.blobs {
      session.blobs := session.blobs[d := Blob(size, true, now)];
    } else if !session.blobs[d].isLocal {
      session.blobs := session.blobs[d := session.blobs[d].(isLocal := true)];
    } else {
      assert session.blobs == session.blobs[d := session.blobs[d].(isLocal := true)];
    }
    session.held := session.held + {(repo, d)};
  }

  /** `purge_repository` */
  method PurgeRepository(session: Session, repo: RepoId) returns (purged: bool)
    modifies session
    ensures session.Snapshot() == Purged(old(session.Snapshot()), repo)
    ensures purged <==> repo in old(session.repos) && !old(session.repos)[repo].isLocal
  {
    if repo !in session.repos || session.repos[repo].isLocal {
      return false;
    }
    session.tags := map k | k in session.tags && k.0 != repo :: session.tags[k];
    session.links := map k | k in session.links && k.0 != repo :: session.links[k];
    session.held := set h | h in session.held && h.0 != repo;
    session.repos := session.repos - {repo};
    return true;
  }

  // ---------------------------------------------------------------------
  // What they keep
  // ---------------------------------------------------------------------

  lemma LocalLinkKeeps(db: Db, repo: RepoId, m: ManifestId, now: Time, after: Db)
    requires Inv(db) && IsLocal(db.repos, repo) && m in db.manifests
    requires after == Linked(db, repo, m, now)
    ensures InvButVerdicts(after) && (repo, m) in after.links
    ensures forall k | k in after.links && k.1 != m && IsLocal(after.repos, k.0) && Judged(after.manifests, k.1) ::
              after.links[k].block == PushVerdict(after.findings, after.policy, k.1)
  {
    if (repo, m) in db.links {
      assert after == db;
    } else {
      NewLinkKeepsProvenance(db, repo, m, Link(now, None));
    }
  }

  lemma AcceptedKeeps(stored: Db, repo: RepoId, tag: Option<Tag>, m: ManifestId, now: Time, after: Db)
    requires Inv(stored) && IsLocal(stored.repos, repo) && m in stored.manifests
    requires after == Accepted(stored, repo, tag, m, now)
    ensures Inv(after)
  {
    var linked := Linked(stored, repo, m, now);
    LocalLinkKeeps(stored, repo, m, now, linked);
    var judged := Applied(linked, m);
    AppliedKeeps(linked, m, judged);
    AppliedKeepsLinks(linked, m);
    if tag.Some? {
      TaggedKeeps(judged, repo, tag.value, m, now);
    }
  }

  lemma PushedKeeps(
    db: Db, repo: RepoId, tag: Option<Tag>, body: Body, files: set<Digest>, parent: Option<Ref>, now: Time)
    requires Inv(db) && IsLocal(db.repos, repo)
    ensures Inv(Pushed(db, repo, tag, body, files, parent, now).0)
  {
    if AllPresent(db, repo, files, body.refs) {
      StoredKeeps(db, body, None, parent, now);
      var (stored, m) := Stored(db, body, None, parent, now);
      AcceptedKeeps(stored, repo, tag, m, now, Accepted(stored, repo, tag, m, now));
    }
  }

  lemma UnlinkedKeeps(db: Db, repo: RepoId, m: ManifestId, after: Db)
    requires Inv(db) && after == Unlinked(db, repo, m)
    ensures Inv(after)
  {
  }

  /** Dropping links cannot break what holds of each link. */
  lemma FewerLinksKeep(db: Db, after: Db)
    requires VerdictsAgree(db.repos, db.manifests, db.links, db.findings, db.policy)
    requires Provenance(db.repos, db.manifests, db.links, db.served)
    requires forall k | k in after.links :: k in db.links && after.links[k] == db.links[k]
    requires forall r | r in after.repos :: r in db.repos && after.repos[r] == db.repos[r]
    ensures VerdictsAgree(after.repos, db.manifests, after.links, db.findings, db.policy)
    ensures Provenance(after.repos, db.manifests, after.links, db.served)
  {
  }

  lemma PurgedKeepsTags(db: Db, repo: RepoId, after: Db)
    requires TagsLinked(db.tags, db.links) && repo in db.repos && !db.repos[repo].isLocal
    requires after == Purged(db, repo)
    ensures TagsLinked(after.tags, after.links)
  {
  }

  lemma PurgedKeepsRows(db: Db, repo: RepoId, after: Db)
    requires RowsSound(db) && repo in db.repos && !db.repos[repo].isLocal && after == Purged(db, repo)
    ensures RowsSound(after)
  {
  }

  lemma PurgedKeeps(db: Db, repo: RepoId, after: Db)
    requires Inv(db) && after == Purged(db, repo)
    ensures Inv(after)
  {
    if repo in db.repos && !db.repos[repo].isLocal {
      FewerLinksKeep(db, after);
      PurgedKeepsTags(db, repo, after);
      PurgedKeepsRows(db, repo, after);
    } else {
      assert after == db;
    }
  }

  lemma RepoRowsKeep(db: Db, repos: map<RepoId, Repository>)
    requires VerdictsAgree(db.repos, db.manifests, db.links, db.findings, db.policy)
    requires Provenance(db.repos, db.manifests, db.links, db.served)
    requires LinksSound(db.links, db.held, db.repos.Keys, db.manifests.Keys)
    requires forall r | r in db.repos :: r in repos && repos[r].upstream == db.repos[r].upstream && repos[r].isLocal == db.repos[r].isLocal
    ensures VerdictsAgree(repos, db.manifests, db.links, db.findings, db.policy)
    ensures Provenance(repos, db.manifests, db.links, db.served)
  {
  }

  lemma FlagsSetKeeps(db: Db, repo: RepoId, pinned: bool, quarantined: bool, watched: set<Tag>, after: Db)
    requires Inv(db) && after == FlagsSet(db, repo, pinned, quarantined, watched)
    ensures Inv(after)
  {
    if repo in db.repos {
      RepoRowsKeep(db, after.repos);
    } else {
      assert after == db;
    }
  }

  lemma RepoCreatedKeeps(db: Db, upstream: Option<UpstreamId>, after: Db)
    requires Inv(db) && after == RepoCreated(db, upstream)
    ensures Inv(after)
  {
    RepoRowsKeep(db, after.repos);
  }

  lemma TouchedKeeps(db: Db, repo: RepoId, m: ManifestId, now: Time, after: Db)
    requires Inv(db) && after == Touched(db, repo, m, now)
    ensures Inv(after)
  {
    if (repo, m) in db.links {
      SameLinksKeep(db, after.links);
      assert forall k | k in after.links :: after.links[k].block == db.links[k].block;
    } else {
      assert after == db;
    }
  }

  // ---------------------------------------------------------------------
  // Push and delete, together
  // ---------------------------------------------------------------------

  lemma AcceptedTables(stored: Db, repo: RepoId, tag: Option<Tag>, m: ManifestId, now: Time, after: Db)
    requires after == Accepted(stored, repo, tag, m, now)
    ensures after.links.Keys == stored.links.Keys + {(repo, m)}
    ensures forall k | k in stored.links :: after.links[k].lastPulled == stored.links[k].lastPulled
    ensures after.tags == if tag.Some? then stored.tags[(repo, tag.value) := TagRow(m, now)] else stored.tags
    ensures after.manifests == stored.manifests && after.refs == stored.refs && after.held == stored.held
  {
    var linked := Linked(stored, repo, m, now);
    AppliedKeepsLinks(linked, m);
    if (repo, m) in stored.links {
      assert linked == stored;
    } else {
      assert linked.links == stored.links[(repo, m) := Link(now, None)];
    }
  }

  lemma PushedTables(
    db: Db, repo: RepoId, tag: Option<Tag>, body: Body, files: set<Digest>, parent: Option<Ref>, now: Time,
    after: Db, m: ManifestId)
    requires Inv(db) && AllPresent(db, repo, files, body.refs)
    requires Pushed(db, repo, tag, body, files, parent, now) == (after, Some(m))
    ensures Aged(db.manifests, after.manifests) && after.manifests.Keys == db.manifests.Keys + {m}
    ensures m in after.manifests && after.manifests[m].digest == body.digest && DigestsUnique(after.manifests)
    ensures after.refs == if m in db.manifests then db.refs else db.refs[m := body.refs]
    ensures after.links.Keys == db.links.Keys + {(repo, m)} && after.held == db.held
    ensures forall k | k in db.links :: after.links[k].lastPulled == db.links[k].lastPulled
    ensures after.tags == if tag.Some? then db.tags[(repo, tag.value) := TagRow(m, now)] else db.tags
  {
    var (stored, _) := Stored(db, body, None, parent, now);
    AcceptedTables(stored, repo, tag, m, now, after);
    StoredTables(db, body, None, parent, now, stored, m);
  }

  /** Deleting what was just pushed restores the links and the tags, when the image
      was not in the repository before and the tag was free. */
  lemma PushThenDelete(
    db: Db, repo: RepoId, tag: Tag, body: Body, files: set<Digest>, parent: Option<Ref>, now: Time)
    requires Inv(db) && (repo, tag) !in db.tags && AllPresent(db, repo, files, body.refs)
    requires forall m | m in db.manifests && db.manifests[m].digest == body.digest :: (repo, m) !in db.links
    ensures var pushed := Pushed(db, repo, Some(tag), body, files, parent, now).0;
            var deleted := ManifestDeleted(pushed, repo, body.digest);
            && deleted.tags == db.tags && deleted.links.Keys == db.links.Keys
            && forall k | k in db.links :: deleted.links[k].lastPulled == db.links[k].lastPulled
  {
    var (pushed, m) := Pushed(db, repo, Some(tag), body, files, parent, now);
    PushedTables(db, repo, Some(tag), body, files, parent, now, pushed, m.value);
    assert RowOf(pushed.manifests, body.digest) == m;
    assert ManifestDeleted(pushed, repo, body.digest) == Unlinked(pushed, repo, m.value);
    assert (repo, m.value) !in db.links by {
      if m.value in db.manifests {
        assert db.manifests[m.value].digest == body.digest;
      }
    }
    UnlinkRestores(db, repo, tag, m.value, now, pushed);
  }

  lemma UnlinkRestores(db: Db, repo: RepoId, tag: Tag, m: ManifestId, now: Time, pushed: Db)
    requires TagsLinked(db.tags, db.links) && (repo, m) !in db.links && (repo, tag) !in db.tags
    requires pushed.tags == db.tags[(repo, tag) := TagRow(m, now)] && pushed.links.Keys == db.links.Keys + {(repo, m)}
    ensures Unlinked(pushed, repo, m).tags == db.tags
    ensures Unlinked(pushed, repo, m).links.Keys == db.links.Keys
  {
  }

  /** The repository answers for this digest already, as a blob or as a manifest of
      its own. */
  predicate HasHere(db: Db, repo: RepoId, d: Digest) {
    BlobInRepo(db, repo, d) || exists c :: c in db.manifests && db.manifests[c].digest == d && (repo, c) in db.links
  }

  /** A transaction makes the repository answer for nothing it did not have. */
  ghost predicate GrantsNothing(db: Db, repo: RepoId, after: Db) {
    forall d: Digest | BlobInRepo(after, repo, d) :: HasHere(db, repo, d)
  }

  /** What a link to `m` makes the repository answer for: what the row's references
      name, and what the rows of its children name. */
  predicate Reaches(db: Db, m: ManifestId, d: Digest) {
    Names(db.refs, m, d)
    || exists c :: c in db.manifests && RefersTo(db.refs, m, ManifestRef, db.manifests[c].digest) && Names(db.refs, c, d)
  }

  ghost predicate AllHere(db: Db, repo: RepoId, m: ManifestId) {
    forall d: Digest | Reaches(db, m, d) :: HasHere(db, repo, d)
  }

  /** When a push grants nothing: when it is refused, when its bytes are new, and
      otherwise exactly when everything the row stored earlier reaches is here. The
      references that were checked are the ones read from the request; the row keeps
      the ones read when the bytes first came in, maybe under another content type. */
  lemma PushGrantsNothing(
    db: Db, repo: RepoId, tag: Option<Tag>, body: Body, files: set<Digest>, parent: Option<Ref>, now: Time)
    requires Inv(db)
    ensures GrantsNothing(db, repo, Pushed(db, repo, tag, body, files, parent, now).0) <==>
              !AllPresent(db, repo, files, body.refs)
              || (forall m | m in db.manifests && db.manifests[m].digest == body.digest :: AllHere(db, repo, m))
  {
    var (after, pushed) := Pushed(db, repo, tag, body, files, parent, now);
    if !AllPresent(db, repo, files, body.refs) {
      assert after == db;
    } else {
      PushedTables(db, repo, tag, body, files, parent, now, after, pushed.value);
      StoredRow(db, body, parent, now);
      AcceptedGrants(db, repo, files, body, after, pushed.value);
    }
  }

  lemma StoredRow(db: Db, body: Body, parent: Option<Ref>, now: Time)
    requires RowsSound(db)
    ensures var m := Stored(db, body, None, parent, now).1;
            forall x | x in db.manifests :: db.manifests[x].digest == body.digest <==> x == m
  {
  }

  lemma AcceptedGrants(db: Db, repo: RepoId, files: set<Digest>, body: Body, after: Db, m: ManifestId)
    requires ManifestsSound(db.manifests, db.refs, db.nextId) && AllPresent(db, repo, files, body.refs)
    requires forall x | x in db.manifests :: db.manifests[x].digest == body.digest <==> x == m
    requires after.refs == if m in db.manifests then db.refs else db.refs[m := body.refs]
    requires Aged(db.manifests, after.manifests) && DigestsUnique(after.manifests)
    requires m in after.manifests && after.manifests.Keys == db.manifests.Keys + {m}
    requires after.links.Keys == db.links.Keys + {(repo, m)} && after.held == db.held
    ensures GrantsNothing(db, repo, after) <==>
              forall x | x in db.manifests && db.manifests[x].digest == body.digest :: AllHere(db, repo, x)
  {
    if m in db.manifests {
      assert after.manifests.Keys == db.manifests.Keys;
      OldRowGrants(db, repo, after, m);
    } else {
      NewRowGrantsNothing(db, repo, files, body, after, m);
    }
  }

  /** A second link to a row that is stored already. */
  lemma OldRowGrants(db: Db, repo: RepoId, after: Db, m: ManifestId)
    requires ManifestsSound(db.manifests, db.refs, db.nextId) && m in db.manifests
    requires after.refs == db.refs && Aged(db.manifests, after.manifests) && after.manifests.Keys == db.manifests.Keys
    requires after.links.Keys == db.links.Keys + {(repo, m)} && after.held == db.held
    ensures GrantsNothing(db, repo, after) <==> AllHere(db, repo, m)
  {
    forall d: Digest ensures BlobInRepo(after, repo, d) <==> BlobInRepo(db, repo, d) || Reaches(db, m, d) {
      if BlobInRepo(after, repo, d) { OldRowReachesNoMore(db, repo, after, m, d); }
      if BlobInRepo(db, repo, d) || Reaches(db, m, d) { OldRowReaches(db, repo, after, m, d); }
    }
  }

  lemma OldRowReaches(db: Db, repo: RepoId, after: Db, m: ManifestId, d: Digest)
    requires ManifestsSound(db.manifests, db.refs, db.nextId) && m in db.manifests
    requires after.refs == db.refs && Aged(db.manifests, after.manifests) && after.manifests.Keys == db.manifests.Keys
    requires after.links.Keys == db.links.Keys + {(repo, m)} && after.held == db.held
    requires BlobInRepo(db, repo, d) || Reaches(db, m, d)
    ensures BlobInRepo(after, repo, d)
  {
    if Reaches(db, m, d) && !Names(db.refs, m, d) {
      var c :| c in db.manifests && RefersTo(db.refs, m, ManifestRef, db.manifests[c].digest) && Names(db.refs, c, d);
      assert (repo, m) in after.links && ChildHere(after, repo, c);
    }
    if BlobInRepo(db, repo, d) && (repo, d) !in db.held {
      var x :| x in db.refs && ((repo, x) in db.links || ChildHere(db, repo, x)) && Names(db.refs, x, d);
      assert (repo, x) in after.links || ChildHere(after, repo, x);
    }
  }

  lemma OldRowReachesNoMore(db: Db, repo: RepoId, after: Db, m: ManifestId, d: Digest)
    requires ManifestsSound(db.manifests, db.refs, db.nextId) && m in db.manifests
    requires after.refs == db.refs && Aged(db.manifests, after.manifests) && after.manifests.Keys == db.manifests.Keys
    requires after.links.Keys == db.links.Keys + {(repo, m)} && after.held == db.held
    requires BlobInRepo(after, repo, d)
    ensures BlobInRepo(db, repo, d) || Reaches(db, m, d)
  {
    if (repo, d) !in db.held {
      var x :| x in after.refs && ((repo, x) in after.links || ChildHere(after, repo, x)) && Names(after.refs, x, d);
      if (repo, x) in after.links {
        assert (repo, x) in db.links || x == m;
      } else {
        var k :| k in after.links && k.0 == repo && RefersTo(after.refs, k.1, ManifestRef, after.manifests[x].digest);
        if k in db.links {
          assert ChildHere(db, repo, x);
        } else {
          assert k.1 == m;
        }
      }
    }
  }

  lemma NewRowGrantsNothing(db: Db, repo: RepoId, files: set<Digest>, body: Body, after: Db, m: ManifestId)
    requires ManifestsSound(db.manifests, db.refs, db.nextId) && AllPresent(db, repo, files, body.refs)
    requires after.refs == db.refs[m := body.refs] && Aged(db.manifests, after.manifests)
    requires m in after.manifests && after.manifests.Keys == db.manifests.Keys + {m} && DigestsUnique(after.manifests)
    requires after.links.Keys == db.links.Keys + {(repo, m)} && after.held == db.held
    ensures GrantsNothing(db, repo, after)
  {
    forall d: Digest | BlobInRepo(after, repo, d) ensures HasHere(db, repo, d) {
      if (repo, d) !in db.held {
        GrantedBefore(db, repo, files, body, after, m, d);
      }
    }
  }

  /** In particular a push grants nothing when the row holds the very references that
      were checked. */
  lemma SameReadingGrantsNothing(
    db: Db, repo: RepoId, tag: Option<Tag>, body: Body, files: set<Digest>, parent: Option<Ref>, now: Time)
    requires Inv(db)
    requires forall m | m in db.manifests && db.manifests[m].digest == body.digest :: db.refs[m] == body.refs
    ensures GrantsNothing(db, repo, Pushed(db, repo, tag, body, files, parent, now).0)
  {
    PushGrantsNothing(db, repo, tag, body, files, parent, now);
    if AllPresent(db, repo, files, body.refs) {
      forall m | m in db.manifests && db.manifests[m].digest == body.digest ensures AllHere(db, repo, m) {
        CheckedIsHere(db, repo, files, body, m);
      }
    }
  }

  lemma CheckedIsHere(db: Db, repo: RepoId, files: set<Digest>, body: Body, m: ManifestId)
    requires RowsSound(db) && AllPresent(db, repo, files, body.refs)
    requires m in db.manifests && db.refs[m] == body.refs
    ensures AllHere(db, repo, m)
  {
    forall d: Digest | Reaches(db, m, d) ensures HasHere(db, repo, d) {
      if Names(db.refs, m, d) {
        var i :| 0 <= i < |body.refs| && body.refs[i].digest == d;
        assert Present(db, repo, files, body.refs[i]);
      } else {
        var c :| c in db.manifests && RefersTo(db.refs, m, ManifestRef, db.manifests[c].digest) && Names(db.refs, c, d);
        var i :| 0 <= i < |body.refs| && body.refs[i].refType == ManifestRef && body.refs[i].digest == db.manifests[c].digest;
        assert Present(db, repo, files, body.refs[i]);
        assert (repo, c) in db.links;
      }
    }
  }

  lemma GrantedBefore(db: Db, repo: RepoId, files: set<Digest>, body: Body, after: Db, m: ManifestId, d: Digest)
    requires ManifestsSound(db.manifests, db.refs, db.nextId) && AllPresent(db, repo, files, body.refs)
    requires after.refs == db.refs[m := body.refs] && Aged(db.manifests, after.manifests)
    requires m in after.manifests && after.manifests.Keys == db.manifests.Keys + {m} && DigestsUnique(after.manifests)
    requires after.links.Keys == db.links.Keys + {(repo, m)} && after.held == db.held
    requires BlobInRepo(after, repo, d) && (repo, d) !in db.held
    ensures HasHere(db, repo, d)
  {
    var x :| x in after.refs && ((repo, x) in after.links || ChildHere(after, repo, x)) && Names(after.refs, x, d);
    if x == m {
      var i :| 0 <= i < |body.refs| && body.refs[i].digest == d;
      assert Present(db, repo, files, body.refs[i]);
    } else {
      NamedBefore(db, repo, files, body, after, m, x, d);
    }
  }

  lemma NamedBefore(
    db: Db, repo: RepoId, files: set<Digest>, body: Body, after: Db, m: ManifestId, x: ManifestId, d: Digest)
    requires ManifestsSound(db.manifests, db.refs, db.nextId) && AllPresent(db, repo, files, body.refs)
    requires after.refs == db.refs[m := body.refs] && Aged(db.manifests, after.manifests)
    requires m in after.manifests && after.manifests.Keys == db.manifests.Keys + {m} && DigestsUnique(after.manifests)
    requires after.links.Keys == db.links.Keys + {(repo, m)}
    requires x != m && x in after.refs && Names(after.refs, x, d)
    requires (repo, x) in after.links || ChildHere(after, repo, x)
    ensures BlobInRepo(db, repo, d)
  {
  }
}
