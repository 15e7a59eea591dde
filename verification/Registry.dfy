/**
 Storing, linking and tagging manifests: the transactions of
 backend/app/docker/registry.py. Each method is one transaction's work on the
 session; the function beside it says what the tables are afterwards.
 */
module Registry {
  import opened Common
  import opened Gate
  import opened Tables

  /** A manifest as parsed from its exact bytes. */
  datatype Body = Body(
    digest: Digest, size: nat, kind: Kind, subject: Option<Digest>, totalSize: nat, refs: seq<Ref>)

  // ---------------------------------------------------------------------
  // What each transaction leaves behind
  // ---------------------------------------------------------------------

  predicate Attested(refs: seq<Ref>, d: Digest) { exists i :: 0 <= i < |refs| && refs[i].attests && refs[i].digest == d }

  /** Rows an index says are attestations stop being images to scan. */
  function MarkAttested(manifests: map<ManifestId, Manifest>, refs: seq<Ref>): map<ManifestId, Manifest> {
    map m | m in manifests ::
      if Attested(refs, manifests[m].digest) then manifests[m].(kind := Attestation, status := NotApplicable)
      else manifests[m]
  }

  function NewRow(body: Body, upstream: Option<UpstreamId>, parent: Option<Ref>, now: Time): Manifest {
    var kind := if body.kind != Index && parent.Some? && parent.value.attests then Attestation else body.kind;
    Manifest(body.digest, body.size, kind, body.subject, upstream, body.totalSize, now,
             if kind == Image then Unscanned else NotApplicable, 0)
  }

  ghost function RowOf(manifests: map<ManifestId, Manifest>, d: Digest): (r: Option<ManifestId>)
    ensures r.Some? ==> r.value in manifests && manifests[r.value].digest == d
    ensures r.None? ==> !HasDigest(manifests, d)
  {
    if HasDigest(manifests, d) then
      var m :| m in manifests && manifests[m].digest == d;
      Some(m)
    else None
  }

  function InsertedRows(
    manifests: map<ManifestId, Manifest>, m: ManifestId, row: Manifest, body: Body): map<ManifestId, Manifest>
  {
    var rows := manifests[m := row];
    if body.kind == Index then MarkAttested(rows, body.refs) else rows
  }

  function Inserted(db: Db, body: Body, upstream: Option<UpstreamId>, parent: Option<Ref>, now: Time): Db {
    var m := db.nextId;
    db.(manifests := InsertedRows(db.manifests, m, NewRow(body, upstream, parent, now), body),
        refs := db.refs[m := body.refs],
        nextId := m + 1)
  }

  /** `parent` is whichever index entry naming this digest the query returned. */
  ghost function Stored(
    db: Db, body: Body, upstream: Option<UpstreamId>, parent: Option<Ref>, now: Time): (Db, ManifestId)
  {
    match RowOf(db.manifests, body.digest)
    case Some(m) => (db, m)
    case None => (Inserted(db, body, upstream, parent, now), db.nextId)
  }

  function Linked(db: Db, repo: RepoId, m: ManifestId, now: Time): Db {
    if (repo, m) in db.links then db else db.(links := db.links[(repo, m) := Link(now, None)])
  }

  function Tagged(db: Db, repo: RepoId, tag: Tag, m: ManifestId, now: Time): Db {
    db.(tags := db.tags[(repo, tag) := TagRow(m, now)])
  }

  function Sent(db: Db, upstream: UpstreamId, d: Digest): Db { db.(served := db.served + {(upstream, d)}) }

  ghost predicate IsUpstreamRepo(db: Db, repo: RepoId) { repo in db.repos && db.repos[repo].upstream.Some? }

  /** `_manifest_by_digest` once the upstream has answered with the bytes. */
  ghost function Fetched(db: Db, repo: RepoId, body: Body, parent: Option<Ref>, now: Time): (Db, ManifestId)
    requires IsUpstreamRepo(db, repo)
  {
    var upstream := db.repos[repo].upstream;
    var (stored, m) := Stored(Sent(db, upstream.value, body.digest), body, upstream, parent, now);
    (Linked(stored, repo, m, now), m)
  }

  /** `_reusable`: linked here already, or in another repository of the same upstream. */
  predicate Reusable(repos: map<RepoId, Repository>, links: map<(RepoId, ManifestId), Link>, repo: RepoId, m: ManifestId) {
    (repo, m) in links
    || (repo in repos && exists k :: k in links && k.1 == m && k.0 in repos
                                     && repos[k.0].upstream == repos[repo].upstream && !repos[k.0].isLocal)
  }

  datatype TagOutcome =
    | Confirmed
    | Moved(digest: Digest)
    | Refetched(body: Body, parent: Option<Ref>)
    | Gone

  /** How `_revalidate` ends. A move to a known digest is taken without a download
      only when it is reusable, otherwise nothing is written. */
  ghost function Revalidated(db: Db, repo: RepoId, tag: Tag, outcome: TagOutcome, now: Time): Db
    requires IsUpstreamRepo(db, repo)
  {
    match outcome
    case Confirmed =>
      if (repo, tag) in db.tags then Tagged(db, repo, tag, db.tags[(repo, tag)].manifest, now) else db
    case Moved(d) =>
      var known := RowOf(db.manifests, d);
      if known.Some? && Reusable(db.repos, db.links, repo, known.value)
      then Tagged(Linked(db, repo, known.value, now), repo, tag, known.value, now) else db
    case Refetched(body, parent) =>
      var (fetched, m) := Fetched(db, repo, body, parent, now);
      Tagged(fetched, repo, tag, m, now)
    case Gone => db.(tags := db.tags - {(repo, tag)})
  }

  // ---------------------------------------------------------------------
  // The transactions
  // ---------------------------------------------------------------------

  /** `store_manifest` */
  method StoreManifest(
    session: Session, body: Body, upstream: Option<UpstreamId>, parent: Option<Ref>, now: Time)
    returns (m: ManifestId)
    requires DigestsUnique(session.manifests)
    modifies session
    ensures (session.Snapshot(), m) == Stored(old(session.Snapshot()), body, upstream, parent, now)
  {
    if HasDigest(session.manifests, body.digest) {
      m :| m in session.manifests && session.manifests[m].digest == body.digest;
      return;
    }
    m := session.nextId;
    session.nextId := m + 1;
    session.manifests := session.manifests[m := NewRow(body, upstream, parent, now)];
    session.refs := session.refs[m := body.refs];
    if body.kind == Index {
      MarkChildren(session, body.refs);
    }
  }

  /** Children fetched before their index learn from it that they are attestations. */
  method MarkChildren(session: Session, refs: seq<Ref>)
    modifies session`manifests
    ensures session.manifests == MarkAttested(old(session.manifests), refs)
  {
    ghost var rows := session.manifests;
    assert MarkAttested(rows, refs[..0]) == rows;
    for i := 0 to |refs|
      invariant session.manifests == MarkAttested(rows, refs[..i])
    {
      if refs[i].attests {
        session.manifests := map x | x in session.manifests ::
          if session.manifests[x].digest == refs[i].digest
          then session.manifests[x].(kind := Attestation, status := NotApplicable) else session.manifests[x];
      }
      MarkNext(rows, refs, i);
    }
    assert refs[..|refs|] == refs;
  }

  lemma MarkNext(rows: map<ManifestId, Manifest>, refs: seq<Ref>, i: nat)
    requires i < |refs|
    ensures var marked := MarkAttested(rows, refs[..i]);
            MarkAttested(rows, refs[..i + 1]) ==
            map x | x in marked :: if refs[i].attests && marked[x].digest == refs[i].digest
                                   then marked[x].(kind := Attestation, status := NotApplicable) else marked[x]
  {
  }

  /** `link` */
  method LinkManifest(session: Session, repo: RepoId, m: ManifestId, now: Time)
    modifies session
    ensures session.Snapshot() == Linked(old(session.Snapshot()), repo, m, now)
  {
    if (repo, m) !in session.links {
      session.links := session.links[(repo, m) := Link(now, None)];
    }
  }

  /** `set_tag`: insert the row or move the one that is there. */
  method SetTag(session: Session, repo: RepoId, tag: Tag, m: ManifestId, now: Time)
    modifies session
    ensures session.Snapshot() == Tagged(old(session.Snapshot()), repo, tag, m, now)
  {
    if (repo, tag) !in session.tags {
      session.tags := session.tags[(repo, tag) := TagRow(m, now)];
      return;
    }
    var row := session.tags[(repo, tag)];
    row := row.(manifest := m);
    row := row.(checkedAt := now);
    session.tags := session.tags[(repo, tag) := row];
  }

  method FetchByDigest(session: Session, repo: RepoId, body: Body, parent: Option<Ref>, now: Time)
    returns (m: ManifestId)
    requires DigestsUnique(session.manifests) && IsUpstreamRepo(session.Snapshot(), repo)
    modifies session
    ensures (session.Snapshot(), m) == Fetched(old(session.Snapshot()), repo, body, parent, now)
  {
    var upstream := session.repos[repo].upstream;
    session.served := session.served + {(upstream.value, body.digest)};
    m := StoreManifest(session, body, upstream, parent, now);
    LinkManifest(session, repo, m, now);
  }

  method Revalidate(session: Session, repo: RepoId, tag: Tag, outcome: TagOutcome, now: Time)
    requires DigestsUnique(session.manifests) && IsUpstreamRepo(session.Snapshot(), repo)
    modifies session
    ensures session.Snapshot() == Revalidated(old(session.Snapshot()), repo, tag, outcome, now)
  {
    match outcome
    case Confirmed =>
      if (repo, tag) in session.tags {
        session.tags := session.tags[(repo, tag) := session.tags[(repo, tag)].(checkedAt := now)];
      }
    case Moved(d) =>
      if HasDigest(session.manifests, d) {
        var known :| known in session.manifests && session.manifests[known].digest == d;
        if Reusable(session.repos, session.links, repo, known) {
          LinkManifest(session, repo, known, now);
          SetTag(session, repo, tag, known, now);
        }
      }
    case Refetched(body, parent) =>
      var m := FetchByDigest(session, repo, body, parent, now);
      SetTag(session, repo, tag, m, now);
    case Gone =>
      session.tags := session.tags - {(repo, tag)};
  }

  // ---------------------------------------------------------------------
  // What they keep
  // ---------------------------------------------------------------------

  /** Storing a manifest adds at most one row, never scanned, and otherwise only
      takes rows out of scanning. */
  ghost predicate Aged(before: map<ManifestId, Manifest>, after: map<ManifestId, Manifest>) {
    && (forall m | m in before :: m in after && after[m].digest == before[m].digest
                                  && (after[m] == before[m] || after[m].status == NotApplicable))
    && (forall m | m in after && m !in before :: after[m].status == Unscanned || after[m].status == NotApplicable)
  }

  lemma AgedKeepsJobs(jobs: map<JobId, Job>, before: map<ManifestId, Manifest>, after: map<ManifestId, Manifest>)
    requires JobsCoherent(jobs, before) && Aged(before, after)
    requires forall j | j in jobs :: jobs[j].manifest in before
    ensures JobsCoherent(jobs, after)
  {
  }

  lemma AgedKeepsKev(
    findings: map<ManifestId, seq<Finding>>, kev: set<string>,
    before: map<ManifestId, Manifest>, after: map<ManifestId, Manifest>)
    requires KevAgrees(findings, kev, before) && Aged(before, after)
    ensures KevAgrees(findings, kev, after)
  {
  }

  lemma AgedKeepsVerdicts(db: Db, after: map<ManifestId, Manifest>)
    requires VerdictsAgree(db.repos, db.manifests, db.links, db.findings, db.policy) && Aged(db.manifests, after)
    ensures VerdictsAgree(db.repos, after, db.links, db.findings, db.policy)
  {
  }

  lemma NewRowAges(db: Db, m: ManifestId, rows: map<ManifestId, Manifest>)
    requires RowsSound(db) && m == db.nextId && m in rows && rows == db.manifests[m := rows[m]]
    requires rows[m].status == Unscanned || rows[m].status == NotApplicable
    requires !HasDigest(db.manifests, rows[m].digest)
    ensures Aged(db.manifests, rows) && DigestsUnique(rows) && m !in db.manifests
  {
  }

  lemma MarkAges(before: map<ManifestId, Manifest>, rows: map<ManifestId, Manifest>, refs: seq<Ref>)
    requires Aged(before, rows) && DigestsUnique(rows)
    ensures var marked := MarkAttested(rows, refs);
            Aged(before, marked) && DigestsUnique(marked) && marked.Keys == rows.Keys
  {
  }

  lemma InsertedRowsAge(db: Db, m: ManifestId, row: Manifest, body: Body)
    requires RowsSound(db) && m == db.nextId && !HasDigest(db.manifests, row.digest)
    requires row.status == Unscanned || row.status == NotApplicable
    ensures var rows := InsertedRows(db.manifests, m, row, body);
            && Aged(db.manifests, rows) && DigestsUnique(rows)
            && rows.Keys == db.manifests.Keys + {m} && rows[m].digest == row.digest && m !in db.manifests
  {
    NewRowAges(db, m, db.manifests[m := row]);
    if body.kind == Index {
      MarkAges(db.manifests, db.manifests[m := row], body.refs);
    }
  }

  lemma RowsInsertedKeep(db: Db, rows: map<ManifestId, Manifest>, refs: seq<Ref>, after: Db)
    requires Inv(db) && Aged(db.manifests, rows) && DigestsUnique(rows) && rows.Keys == db.manifests.Keys + {db.nextId}
    requires after == db.(manifests := rows, refs := db.refs[db.nextId := refs], nextId := db.nextId + 1)
    ensures Inv(after)
  {
    AgedKeepsJobs(db.jobs, db.manifests, rows);
    AgedKeepsKev(db.findings, db.kev, db.manifests, rows);
    AgedKeepsVerdicts(db, rows);
    AgedKeepsProvenance(db, rows);
  }

  lemma InsertedKeeps(db: Db, body: Body, upstream: Option<UpstreamId>, parent: Option<Ref>, now: Time)
    requires Inv(db) && !HasDigest(db.manifests, body.digest)
    ensures Inv(Inserted(db, body, upstream, parent, now))
  {
    var row := NewRow(body, upstream, parent, now);
    InsertedRowsAge(db, db.nextId, row, body);
    RowsInsertedKeep(db, InsertedRows(db.manifests, db.nextId, row, body), body.refs,
                     Inserted(db, body, upstream, parent, now));
  }

  /** What storing bytes does to each table. */
  lemma StoredTables(
    db: Db, body: Body, upstream: Option<UpstreamId>, parent: Option<Ref>, now: Time, after: Db, m: ManifestId)
    requires RowsSound(db) && (after, m) == Stored(db, body, upstream, parent, now)
    ensures Aged(db.manifests, after.manifests) && DigestsUnique(after.manifests)
    ensures m in after.manifests && after.manifests[m].digest == body.digest
    ensures after.manifests.Keys == db.manifests.Keys + {m}
    ensures after.refs == if m in db.manifests then db.refs else db.refs[m := body.refs]
    ensures after.repos == db.repos && after.links == db.links && after.tags == db.tags && after.held == db.held
  {
    if RowOf(db.manifests, body.digest).None? {
      InsertedRowsAge(db, m, NewRow(body, upstream, parent, now), body);
    } else {
      assert after == db;
    }
  }

  lemma AgedKeepsProvenance(db: Db, after: map<ManifestId, Manifest>)
    requires Provenance(db.repos, db.manifests, db.links, db.served) && Aged(db.manifests, after)
    requires LinksSound(db.links, db.held, db.repos.Keys, db.manifests.Keys)
    ensures Provenance(db.repos, after, db.links, db.served)
  {
  }

  /** Storing bytes alone keeps every invariant, whoever sent them. */
  lemma StoredKeeps(db: Db, body: Body, upstream: Option<UpstreamId>, parent: Option<Ref>, now: Time)
    requires Inv(db)
    ensures var (after, m) := Stored(db, body, upstream, parent, now);
            && Inv(after) && m in after.manifests && after.manifests[m].digest == body.digest
            && after.repos == db.repos && after.served == db.served
  {
    var (after, m) := Stored(db, body, upstream, parent, now);
    StoredTables(db, body, upstream, parent, now, after, m);
    if RowOf(db.manifests, body.digest).None? {
      InsertedKeeps(db, body, upstream, parent, now);
    }
  }

  lemma NewLinkKeepsVerdicts(db: Db, repo: RepoId, m: ManifestId, row: Link)
    requires VerdictsAgree(db.repos, db.manifests, db.links, db.findings, db.policy)
    requires !IsLocal(db.repos, repo) || row.block == PushVerdict(db.findings, db.policy, m)
    ensures VerdictsAgree(db.repos, db.manifests, db.links[(repo, m) := row], db.findings, db.policy)
  {
  }

  lemma NewLinkKeepsProvenance(db: Db, repo: RepoId, m: ManifestId, row: Link)
    requires Provenance(db.repos, db.manifests, db.links, db.served)
    requires repo in db.repos && m in db.manifests
    requires db.repos[repo].upstream.Some? ==> (db.repos[repo].upstream.value, db.manifests[m].digest) in db.served
    ensures Provenance(db.repos, db.manifests, db.links[(repo, m) := row], db.served)
  {
  }

  /** A link into an upstream repository, to bytes its upstream has sent. */
  lemma LinkedKeeps(db: Db, repo: RepoId, m: ManifestId, now: Time)
    requires Inv(db) && IsUpstreamRepo(db, repo) && m in db.manifests
    requires (db.repos[repo].upstream.value, db.manifests[m].digest) in db.served
    ensures Inv(Linked(db, repo, m, now)) && (repo, m) in Linked(db, repo, m, now).links
  {
    if (repo, m) in db.links {
      assert Linked(db, repo, m, now) == db;
    } else {
      NewLinkKeepsVerdicts(db, repo, m, Link(now, None));
      NewLinkKeepsProvenance(db, repo, m, Link(now, None));
    }
  }

  lemma TaggedKeeps(db: Db, repo: RepoId, tag: Tag, m: ManifestId, now: Time)
    requires Inv(db) && (repo, m) in db.links
    ensures Inv(Tagged(db, repo, tag, m, now))
  {
  }

  lemma FetchedKeeps(db: Db, repo: RepoId, body: Body, parent: Option<Ref>, now: Time)
    requires Inv(db) && IsUpstreamRepo(db, repo)
    ensures var (after, m) := Fetched(db, repo, body, parent, now); Inv(after) && (repo, m) in after.links
  {
    var upstream := db.repos[repo].upstream;
    var sent := Sent(db, upstream.value, body.digest);
    assert Inv(sent);
    StoredKeeps(sent, body, upstream, parent, now);
    var (stored, m) := Stored(sent, body, upstream, parent, now);
    LinkedKeeps(stored, repo, m, now);
  }

  lemma RevalidatedKeeps(db: Db, repo: RepoId, tag: Tag, outcome: TagOutcome, now: Time)
    requires Inv(db) && IsUpstreamRepo(db, repo)
    ensures Inv(Revalidated(db, repo, tag, outcome, now))
  {
    match outcome
    case Confirmed =>
      if (repo, tag) in db.tags {
        TaggedKeeps(db, repo, tag, db.tags[(repo, tag)].manifest, now);
      }
    case Moved(d) =>
      var known := RowOf(db.manifests, d);
      if known.Some? && Reusable(db.repos, db.links, repo, known.value) {
        ReusableWasServed(db, repo, known.value);
        LinkedKeeps(db, repo, known.value, now);
        TaggedKeeps(Linked(db, repo, known.value, now), repo, tag, known.value, now);
      }
    case Refetched(body, parent) =>
      FetchedKeeps(db, repo, body, parent, now);
      var (fetched, m) := Fetched(db, repo, body, parent, now);
      TaggedKeeps(fetched, repo, tag, m, now);
    case Gone =>
  }

  /** The step provenance turns on: a digest taken on the upstream's word alone is
      one that some repository of that same upstream already got the bytes of. */
  lemma ReusableWasServed(db: Db, repo: RepoId, m: ManifestId)
    requires Inv(db) && IsUpstreamRepo(db, repo) && m in db.manifests
    requires Reusable(db.repos, db.links, repo, m)
    ensures (db.repos[repo].upstream.value, db.manifests[m].digest) in db.served
  {
  }
}
