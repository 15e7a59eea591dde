/**
 What a client is refused, read off the tables: the manifests a verdict is about are the
 rows the queries of backend/app/docker/policy.py and docker/registry.py return, and in
 every run the recorded push verdicts among them are the ones given now.
 */
module Serving {
  import opened Common
  import opened Gate
  import opened Tables
  import opened Registry
  import opened Scanning
  import opened Push
  import opened Housekeeping
  import opened Reachable
  import opened Effects

  // ---------------------------------------------------------------------
  // What the verdicts read
  // ---------------------------------------------------------------------

  function RepoAt(db: Db, repo: RepoId): Repo
    requires repo in db.repos
  {
    Repo(db.repos[repo].isLocal, db.repos[repo].quarantined)
  }

  function ViewAt(db: Db, repo: RepoId, m: ManifestId): View
    requires m in db.manifests
  {
    View(db.manifests[m].kind, db.manifests[m].status, FindingsOf(db.findings, m),
         if (repo, m) in db.links then db.links[(repo, m)].block else None)
  }

  /** The platform images of an index: those stored here, wherever they are linked. */
  function Children(db: Db, m: ManifestId): set<ManifestId> {
    set c | c in db.manifests && db.manifests[c].kind == Image && RefersTo(db.refs, m, ManifestRef, db.manifests[c].digest)
  }

  /** What a query without an order returns: the rows, in some order. */
  ghost predicate Lists(cs: seq<ManifestId>, rows: set<ManifestId>) { forall c :: c in cs <==> c in rows }

  function ViewsAt(db: Db, repo: RepoId, cs: seq<ManifestId>): (r: seq<View>)
    requires forall c | c in cs :: c in db.manifests
    ensures |r| == |cs|
    ensures forall i | 0 <= i < |r| :: r[i] == ViewAt(db, repo, cs[i])
  {
    seq(|cs|, i requires 0 <= i < |cs| => ViewAt(db, repo, cs[i]))
  }

  /** `evaluate_pull`, the children of an index having come in the order `cs`. */
  function PullAt(db: Db, repo: RepoId, m: ManifestId, cs: seq<ManifestId>): Verdict
    requires repo in db.repos && m in db.manifests && forall c | c in cs :: c in db.manifests
  {
    PullVerdict(RepoAt(db, repo), ViewAt(db, repo, m), ViewsAt(db, repo, cs), db.policy)
  }

  // ---------------------------------------------------------------------
  // The plain statement
  // ---------------------------------------------------------------------

  /** A push verdict is recorded against it in this repository. */
  predicate Blocked(db: Db, repo: RepoId, m: ManifestId) {
    IsLocal(db.repos, repo) && (repo, m) in db.links && db.links[(repo, m)].block.Some?
  }

  ghost predicate PullRulesObject(db: Db, m: ManifestId) {
    exists f | f in FindingsOf(db.findings, m) :: Objectionable(f, db.policy, db.policy.pull)
  }

  ghost predicate PushRulesObject(db: Db, m: ManifestId) {
    exists f | f in FindingsOf(db.findings, m) :: Objectionable(f, db.policy, db.policy.push)
  }

  predicate MustBeScanned(db: Db, repo: RepoId) {
    db.policy.scanningEnabled && (db.policy.strictMode || (IsLocal(db.repos, repo) && db.policy.pushRequireScan))
  }

  ghost predicate ChildRefused(db: Db, repo: RepoId, c: ManifestId)
    requires c in db.manifests
  {
    Blocked(db, repo, c) || (db.manifests[c].status == Scanned && PullRulesObject(db, c))
  }

  ghost predicate PullRefused(db: Db, repo: RepoId, m: ManifestId)
    requires repo in db.repos && m in db.manifests
  {
    db.repos[repo].quarantined
    || Blocked(db, repo, m)
    || (db.manifests[m].kind == Index && exists c :: c in Children(db, m) && ChildRefused(db, repo, c))
    || (db.manifests[m].kind == Image
        && if db.manifests[m].status == Scanned then PullRulesObject(db, m) else MustBeScanned(db, repo))
  }

  lemma ChildIsPlain(db: Db, repo: RepoId, c: ManifestId)
    requires repo in db.repos && c in db.manifests
    ensures ChildVerdict(RepoAt(db, repo), ViewAt(db, repo, c), db.policy).Refused? <==> ChildRefused(db, repo, c)
  {
    RulesVerdictIsPlain(FindingsOf(db.findings, c), db.policy, db.policy.pull);
  }

  lemma IndexIsPlain(db: Db, repo: RepoId, m: ManifestId, cs: seq<ManifestId>)
    requires repo in db.repos && Lists(cs, Children(db, m))
    ensures IndexVerdict(RepoAt(db, repo), ViewsAt(db, repo, cs), db.policy).Refused?
            <==> exists c :: c in Children(db, m) && ChildRefused(db, repo, c)
  {
    var views := ViewsAt(db, repo, cs);
    IndexVerdictIsPlain(RepoAt(db, repo), views, db.policy);
    if c :| c in Children(db, m) && ChildRefused(db, repo, c) {
      var i :| 0 <= i < |cs| && cs[i] == c;
      ChildIsPlain(db, repo, c);
      assert views[i] in views;
    }
    if v :| v in views && v.kind == Image && ChildVerdict(RepoAt(db, repo), v, db.policy).Refused? {
      var i :| 0 <= i < |views| && views[i] == v;
      ChildIsPlain(db, repo, cs[i]);
      assert cs[i] in cs;
    }
  }

  /** The verdict on a pull, whatever order the children came in. */
  lemma PullIsPlain(db: Db, repo: RepoId, m: ManifestId, cs: seq<ManifestId>)
    requires repo in db.repos && m in db.manifests && Lists(cs, Children(db, m))
    ensures PullAt(db, repo, m, cs).Refused? <==> PullRefused(db, repo, m)
  {
    IndexIsPlain(db, repo, m, cs);
    RulesVerdictIsPlain(FindingsOf(db.findings, m), db.policy, db.policy.pull);
  }

  // ---------------------------------------------------------------------
  // In every run, judged now
  // ---------------------------------------------------------------------

  /** A finding the pull rules refuse now, or, where a local repository holds the image,
      the push rules. */
  ghost predicate ObjectionableNow(db: Db, repo: RepoId, m: ManifestId) {
    PullRulesObject(db, m) || (IsLocal(db.repos, repo) && (repo, m) in db.links && PushRulesObject(db, m))
  }

  /** Recorded verdicts count only for what is being scanned again. */
  ghost predicate ChildRefusedNow(db: Db, repo: RepoId, c: ManifestId)
    requires c in db.manifests
  {
    if db.manifests[c].status == Scanned then ObjectionableNow(db, repo, c) else Blocked(db, repo, c)
  }

  /** A stored image that the index lists. */
  ghost predicate ListedImage(db: Db, m: ManifestId, c: ManifestId) {
    && c in db.manifests && db.manifests[c].kind == Image
    && m in db.refs && exists i :: 0 <= i < |db.refs[m]| && db.refs[m][i].refType == ManifestRef && db.refs[m][i].digest == db.manifests[c].digest
  }

  ghost predicate PullRefusedNow(db: Db, repo: RepoId, m: ManifestId)
    requires repo in db.repos && m in db.manifests
  {
    db.repos[repo].quarantined
    || match db.manifests[m].kind
       case Image =>
         if db.manifests[m].status == Scanned then ObjectionableNow(db, repo, m)
         else Blocked(db, repo, m) || MustBeScanned(db, repo)
       case Index => Blocked(db, repo, m) || exists c :: ListedImage(db, m, c) && ChildRefusedNow(db, repo, c)
       case _ => Blocked(db, repo, m)
  }

  lemma BlockedIsNow(db: Db, repo: RepoId, m: ManifestId)
    requires VerdictsAgree(db.repos, db.manifests, db.links, db.findings, db.policy) && Judged(db.manifests, m)
    ensures Blocked(db, repo, m) <==> IsLocal(db.repos, repo) && (repo, m) in db.links && PushRulesObject(db, m)
  {
    if IsLocal(db.repos, repo) && (repo, m) in db.links {
      RulesVerdictIsPlain(FindingsOf(db.findings, m), db.policy, db.policy.push);
      assert db.links[(repo, m)].block == PushVerdict(db.findings, db.policy, m);
    }
  }

  lemma ChildIsNow(db: Db, repo: RepoId, c: ManifestId)
    requires VerdictsAgree(db.repos, db.manifests, db.links, db.findings, db.policy)
    requires c in db.manifests && db.manifests[c].kind == Image
    ensures ChildRefused(db, repo, c) <==> ChildRefusedNow(db, repo, c)
  {
    if db.manifests[c].status == Scanned {
      BlockedIsNow(db, repo, c);
    }
  }

  lemma RefusedIsNow(db: Db, repo: RepoId, m: ManifestId)
    requires VerdictsAgree(db.repos, db.manifests, db.links, db.findings, db.policy)
    requires repo in db.repos && m in db.manifests
    ensures PullRefused(db, repo, m) <==> PullRefusedNow(db, repo, m)
  {
    if Judged(db.manifests, m) {
      BlockedIsNow(db, repo, m);
    }
    assert forall c :: c in Children(db, m) <==> ListedImage(db, m, c);
    forall c | c in Children(db, m) ensures ChildRefused(db, repo, c) <==> ChildRefusedNow(db, repo, c) {
      ChildIsNow(db, repo, c);
    }
  }

  /** In every run, an image, an index or anything else is refused exactly when the
      rules in force object to the findings known now, in the repository that serves
      it; a recorded verdict decides only for an image that is not scanned now. */
  lemma PullsAreJudgedNow(policy: Policy, steps: seq<Step>, repo: RepoId, m: ManifestId, cs: seq<ManifestId>)
    requires var db := Run(policy, steps); repo in db.repos && m in db.manifests && Lists(cs, Children(db, m))
    ensures var db := Run(policy, steps); PullAt(db, repo, m, cs).Refused? <==> PullRefusedNow(db, repo, m)
  {
    var db := Run(policy, steps);
    RunKeeps(policy, steps);
    PullIsPlain(db, repo, m, cs);
    RefusedIsNow(db, repo, m);
  }

  /** The case the cached verdict is for: a scanned image in a local repository is
      refused exactly when the repository is quarantined or one of its findings is
      objectionable now, to the push rules or to the pull rules. */
  lemma LocalPullsAreJudgedNow(policy: Policy, steps: seq<Step>, repo: RepoId, m: ManifestId)
    requires var db := Run(policy, steps); (repo, m) in db.links && IsLocal(db.repos, repo) && Judged(db.manifests, m)
    ensures var db := Run(policy, steps);
            PullAt(db, repo, m, []).Refused? <==>
              db.repos[repo].quarantined
              || exists f | f in FindingsOf(db.findings, m) ::
                   Objectionable(f, db.policy, db.policy.push) || Objectionable(f, db.policy, db.policy.pull)
  {
    var db := Run(policy, steps);
    RunKeeps(policy, steps);
    BlockedIsNow(db, repo, m);
    RulesVerdictIsPlain(FindingsOf(db.findings, m), db.policy, db.policy.pull);
  }

  // ---------------------------------------------------------------------
  // Layers
  // ---------------------------------------------------------------------

  const VERDICT_MANIFESTS := 50

  /** The manifests of this repository, or children of its indexes, that name the blob. */
  function Naming(db: Db, repo: RepoId, d: Digest): set<ManifestId> {
    set x | x in db.manifests && NamesBlob(db.refs, x, d) && ((repo, x) in db.links || ChildHere(db, repo, x))
  }

  /** A manifest linked here, or listed by an index linked here, has the blob as a layer
      or as its config. */
  ghost predicate LayerOf(db: Db, repo: RepoId, d: Digest, x: ManifestId) {
    && x in db.manifests && x in db.refs && ((repo, x) in db.links || ListedHere(db, repo, x))
    && exists i :: 0 <= i < |db.refs[x]| && db.refs[x][i].refType != ManifestRef && db.refs[x][i].digest == d
  }

  lemma NamingMeans(db: Db, repo: RepoId, d: Digest, x: ManifestId)
    ensures x in Naming(db, repo, d) <==> LayerOf(db, repo, d, x)
  {
    ChildHereMeans(db, repo, x);
  }

  /** Most recently served first, never served last, newer rows first among equals. */
  predicate ServedBefore(accessed: map<ManifestId, Time>, a: ManifestId, b: ManifestId) {
    if a in accessed && b in accessed then accessed[a] > accessed[b] || (accessed[a] == accessed[b] && a > b)
    else if a in accessed || b in accessed then a in accessed
    else a > b
  }

  /** `manifests_naming_blob`: the first so many of the rows, in that order. */
  ghost predicate Heads(ks: seq<ManifestId>, rows: set<ManifestId>, accessed: map<ManifestId, Time>) {
    && |ks| <= VERDICT_MANIFESTS
    && (forall k | k in ks :: k in rows)
    && (forall i, j | 0 <= i < j < |ks| :: ServedBefore(accessed, ks[i], ks[j]))
    && (forall x, k | x in rows && x !in ks && k in ks :: ServedBefore(accessed, k, x))
    && ((exists x :: x in rows && x !in ks) ==> |ks| == VERDICT_MANIFESTS)
  }

  /** Rows that fit are all looked at. */
  lemma HeadsAreAll(ks: seq<ManifestId>, rows: set<ManifestId>, accessed: map<ManifestId, Time>)
    requires Heads(ks, rows, accessed) && |rows| <= VERDICT_MANIFESTS
    ensures forall x :: x in rows <==> x in ks
  {
    if x :| x in rows && x !in ks {
      HeadsAreDistinct(ks, rows - {x}, accessed);
    }
  }

  lemma {:induction false} HeadsAreDistinct(ks: seq<ManifestId>, rows: set<ManifestId>, accessed: map<ManifestId, Time>)
    requires forall k | k in ks :: k in rows
    requires forall i, j | 0 <= i < j < |ks| :: ServedBefore(accessed, ks[i], ks[j])
    ensures |ks| <= |rows|
  {
    if ks != [] {
      var k := ks[|ks| - 1];
      forall i | 0 <= i < |ks| - 1 ensures ks[i] in rows - {k} {
        assert ServedBefore(accessed, ks[i], k);
      }
      HeadsAreDistinct(ks[..|ks| - 1], rows - {k}, accessed);
    }
  }

  /** The first row of some, in that order. */
  method FirstServed(rows: set<ManifestId>, accessed: map<ManifestId, Time>) returns (first: ManifestId)
    requires rows != {}
    ensures first in rows && forall x | x in rows && x != first :: ServedBefore(accessed, first, x)
  {
    first :| first in rows;
    var left := rows - {first};
    while left != {}
      invariant left <= rows && first in rows && first !in left
      invariant forall x | x in rows - left && x != first :: ServedBefore(accessed, first, x)
      decreases left
    {
      var x :| x in left;
      ghost var seen, best := rows - left, first;
      if ServedBefore(accessed, x, first) {
        first := x;
      }
      left := left - {x};
      forall y | y in rows - left && y != first ensures ServedBefore(accessed, first, y) {
        assert y == x || y in seen;
        assert y in seen && y != best ==> ServedBefore(accessed, best, y);
      }
    }
  }

  /** `ORDER BY ... LIMIT 50` */
  method SelectHeads(rows: set<ManifestId>, accessed: map<ManifestId, Time>) returns (ks: seq<ManifestId>)
    ensures Heads(ks, rows, accessed) && |ks| == if |rows| < 50 then |rows| else 50
  {
    ks := [];
    var left := rows;
    while left != {} && |ks| < VERDICT_MANIFESTS
      invariant |ks| <= VERDICT_MANIFESTS && left <= rows && |ks| + |left| == |rows|
      invariant forall x :: x in rows <==> x in ks || x in left
      invariant forall x | x in left :: x !in ks
      invariant forall i, j | 0 <= i < j < |ks| :: ServedBefore(accessed, ks[i], ks[j])
      invariant forall k, x | k in ks && x in left :: ServedBefore(accessed, k, x)
      decreases left
    {
      var first := FirstServed(left, accessed);
      left := left - {first};
      ks := ks + [first];
    }
  }

  /** Each manifest the verdict looks at, with its children in some order. */
  ghost predicate LooksAt(db: Db, repo: RepoId, d: Digest, accessed: map<ManifestId, Time>, ks: seq<ManifestId>, cs: seq<seq<ManifestId>>) {
    && Heads(ks, Naming(db, repo, d), accessed) && |cs| == |ks|
    && forall i | 0 <= i < |ks| :: Lists(cs[i], Children(db, ks[i]))
  }

  function NamingViews(db: Db, repo: RepoId, ks: seq<ManifestId>, cs: seq<seq<ManifestId>>): (r: seq<(View, seq<View>)>)
    requires |cs| == |ks| && (forall k | k in ks :: k in db.manifests)
    requires forall i, c | 0 <= i < |cs| && c in cs[i] :: c in db.manifests
    ensures |r| == |ks|
    ensures forall i | 0 <= i < |r| :: r[i] == (ViewAt(db, repo, ks[i]), ViewsAt(db, repo, cs[i]))
  {
    seq(|ks|, i requires 0 <= i < |ks| => (ViewAt(db, repo, ks[i]), ViewsAt(db, repo, cs[i])))
  }

  lemma LookedAtAreRows(db: Db, repo: RepoId, d: Digest, accessed: map<ManifestId, Time>, ks: seq<ManifestId>, cs: seq<seq<ManifestId>>)
    requires LooksAt(db, repo, d, accessed, ks, cs)
    ensures |cs| == |ks| && (forall k | k in ks :: k in db.manifests)
    ensures forall i, c | 0 <= i < |cs| && c in cs[i] :: c in db.manifests
  {
    forall i, c | 0 <= i < |cs| && c in cs[i] ensures c in db.manifests {
      assert Lists(cs[i], Children(db, ks[i]));
    }
  }

  /** A layer is refused when the repository is quarantined, or when there are manifests
      to look at and every one of them is refused. */
  ghost predicate LayerRefused(db: Db, repo: RepoId, ks: seq<ManifestId>)
    requires repo in db.repos && forall k | k in ks :: k in db.manifests
  {
    db.repos[repo].quarantined || (ks != [] && forall k | k in ks :: PullRefusedNow(db, repo, k))
  }

  /** `blob_pull_verdict` over the tables. */
  method BlobPullVerdict(db: Db, repo: RepoId, d: Digest, accessed: map<ManifestId, Time>, ks: seq<ManifestId>, cs: seq<seq<ManifestId>>)
    returns (v: Verdict)
    requires repo in db.repos && LooksAt(db, repo, d, accessed, ks, cs)
    requires VerdictsAgree(db.repos, db.manifests, db.links, db.findings, db.policy)
    ensures (forall k | k in ks :: k in db.manifests) && (v.Refused? <==> LayerRefused(db, repo, ks))
  {
    LookedAtAreRows(db, repo, d, accessed, ks, cs);
    var views := NamingViews(db, repo, ks, cs);
    v := BlobVerdict(RepoAt(db, repo), views, db.policy);
    LayerIsPlain(db, repo, d, accessed, ks, cs);
  }

  lemma LayerIsPlain(db: Db, repo: RepoId, d: Digest, accessed: map<ManifestId, Time>, ks: seq<ManifestId>, cs: seq<seq<ManifestId>>)
    requires repo in db.repos && LooksAt(db, repo, d, accessed, ks, cs)
    requires VerdictsAgree(db.repos, db.manifests, db.links, db.findings, db.policy)
    requires (forall k | k in ks :: k in db.manifests) && forall i, c | 0 <= i < |cs| && c in cs[i] :: c in db.manifests
    ensures BlobRefused(RepoAt(db, repo), NamingViews(db, repo, ks, cs), db.policy) <==> LayerRefused(db, repo, ks)
  {
    var views := NamingViews(db, repo, ks, cs);
    forall i | 0 <= i < |ks|
      ensures PullVerdict(RepoAt(db, repo), views[i].0, views[i].1, db.policy).Refused? <==> PullRefusedNow(db, repo, ks[i])
    {
      assert PullAt(db, repo, ks[i], cs[i]) == PullVerdict(RepoAt(db, repo), views[i].0, views[i].1, db.policy);
      PullIsPlain(db, repo, ks[i], cs[i]);
      RefusedIsNow(db, repo, ks[i]);
    }
    if forall k | k in ks :: PullRefusedNow(db, repo, k) {
      forall n | n in views ensures PullVerdict(RepoAt(db, repo), n.0, n.1, db.policy).Refused? {
        var i :| 0 <= i < |views| && views[i] == n;
        assert ks[i] in ks;
      }
    }
    if forall n | n in views :: PullVerdict(RepoAt(db, repo), n.0, n.1, db.policy).Refused? {
      forall k | k in ks ensures PullRefusedNow(db, repo, k) {
        var i :| 0 <= i < |ks| && ks[i] == k;
        assert views[i] in views;
      }
    }
  }

  /** In every run, a layer named by no more manifests than the verdict looks at is
      refused exactly in quarantine, or when something here names it and everything
      that does is refused now; of one named by more, the first fifty decide. */
  lemma LayersAreJudgedNow(
    policy: Policy, steps: seq<Step>, repo: RepoId, d: Digest, accessed: map<ManifestId, Time>, ks: seq<ManifestId>, cs: seq<seq<ManifestId>>)
    requires var db := Run(policy, steps); repo in db.repos && LooksAt(db, repo, d, accessed, ks, cs)
    ensures var db := Run(policy, steps);
            && (forall k | k in ks :: k in db.manifests) && (forall i, c | 0 <= i < |cs| && c in cs[i] :: c in db.manifests)
            && var refused := BlobRefused(RepoAt(db, repo), NamingViews(db, repo, ks, cs), db.policy);
            && (refused <==> LayerRefused(db, repo, ks))
            && (|Naming(db, repo, d)| <= 50 ==>
                  (refused <==> db.repos[repo].quarantined
                                || ((exists x :: LayerOf(db, repo, d, x)) && forall x | LayerOf(db, repo, d, x) :: PullRefusedNow(db, repo, x))))
  {
    var db := Run(policy, steps);
    RunKeeps(policy, steps);
    LookedAtAreRows(db, repo, d, accessed, ks, cs);
    LayerIsPlain(db, repo, d, accessed, ks, cs);
    if |Naming(db, repo, d)| <= 50 {
      HeadsAreAll(ks, Naming(db, repo, d), accessed);
      forall x ensures x in ks <==> LayerOf(db, repo, d, x) {
        NamingMeans(db, repo, d, x);
      }
      assert ks != [] ==> LayerOf(db, repo, d, ks[0]);
    }
  }

  // ---------------------------------------------------------------------
  // Saving a stricter policy
  // ---------------------------------------------------------------------

  lemma SavedTables(db: Db, q: Policy, after: Db)
    requires after == PolicySaved(db, q)
    ensures after.repos == db.repos && after.manifests == db.manifests && after.refs == db.refs && after.policy == q
    ensures after.findings == db.findings && after.links.Keys == db.links.Keys
    ensures forall k | k in db.links ::
              after.links[k].block == if IsLocal(db.repos, k.0) && Judged(db.manifests, k.1) then PushVerdict(db.findings, q, k.1)
                                      else db.links[k].block
  {
  }

  /** Saving a tighter policy leaves every recorded refusal a refusal. */
  lemma SavingRejudges(db: Db, q: Policy, repo: RepoId, m: ManifestId)
    requires VerdictsAgree(db.repos, db.manifests, db.links, db.findings, db.policy) && Tighter(db.policy, q)
    requires repo in db.repos && m in db.manifests
    ensures var after := PolicySaved(db, q);
            after.repos == db.repos && after.manifests == db.manifests && after.refs == db.refs && after.policy == q
            && Rejudged(ViewAt(db, repo, m), ViewAt(after, repo, m))
  {
    SavedTables(db, q, PolicySaved(db, q));
    if (repo, m) in db.links && IsLocal(db.repos, repo) && Judged(db.manifests, m) {
      TighteningRules(FindingsOf(db.findings, m), db.policy, q, db.policy.push, q.push);
    }
  }

  lemma SavingRejudgesAll(db: Db, q: Policy, repo: RepoId, cs: seq<ManifestId>)
    requires VerdictsAgree(db.repos, db.manifests, db.links, db.findings, db.policy) && Tighter(db.policy, q)
    requires repo in db.repos && forall c | c in cs :: c in db.manifests
    ensures PolicySaved(db, q).manifests == db.manifests
    ensures AllRejudged(ViewsAt(db, repo, cs), ViewsAt(PolicySaved(db, q), repo, cs))
  {
    forall i | 0 <= i < |cs| ensures Rejudged(ViewAt(db, repo, cs[i]), ViewAt(PolicySaved(db, q), repo, cs[i])) {
      SavingRejudges(db, q, repo, cs[i]);
    }
  }

  /** In every run, saving a tighter policy opens no pull that was refused: of an image,
      or of an index with the children stored for it. */
  lemma TighteningOpensNoPull(policy: Policy, steps: seq<Step>, q: Policy, repo: RepoId, m: ManifestId, cs: seq<ManifestId>)
    requires var db := Run(policy, steps);
             Tighter(db.policy, q) && repo in db.repos && m in db.manifests && Lists(cs, Children(db, m))
    ensures var db := Run(policy, steps);
            var after := PolicySaved(db, q);
            && repo in after.repos && m in after.manifests && Lists(cs, Children(after, m))
            && (PullAt(db, repo, m, cs).Refused? ==> PullAt(after, repo, m, cs).Refused?)
  {
    var db := Run(policy, steps);
    RunKeeps(policy, steps);
    SavingOpensNoPull(db, q, repo, m, cs, PolicySaved(db, q));
  }

  lemma SavingOpensNoPull(db: Db, q: Policy, repo: RepoId, m: ManifestId, cs: seq<ManifestId>, after: Db)
    requires VerdictsAgree(db.repos, db.manifests, db.links, db.findings, db.policy) && Tighter(db.policy, q)
    requires repo in db.repos && m in db.manifests && Lists(cs, Children(db, m)) && after == PolicySaved(db, q)
    ensures repo in after.repos && m in after.manifests && Lists(cs, Children(after, m))
    ensures PullAt(db, repo, m, cs).Refused? ==> PullAt(after, repo, m, cs).Refused?
  {
    SavingRejudges(db, q, repo, m);
    SavingRejudgesAll(db, q, repo, cs);
    assert Children(after, m) == Children(db, m);
    TighteningPull(RepoAt(db, repo), ViewAt(db, repo, m), ViewAt(after, repo, m),
                   ViewsAt(db, repo, cs), ViewsAt(after, repo, cs), db.policy, q);
  }

  /** ... and no layer. */
  lemma TighteningOpensNoLayer(
    policy: Policy, steps: seq<Step>, q: Policy, repo: RepoId, d: Digest, accessed: map<ManifestId, Time>,
    ks: seq<ManifestId>, cs: seq<seq<ManifestId>>)
    requires var db := Run(policy, steps);
             Tighter(db.policy, q) && repo in db.repos && LooksAt(db, repo, d, accessed, ks, cs)
    ensures var db := Run(policy, steps);
            var after := PolicySaved(db, q);
            && repo in after.repos && LooksAt(after, repo, d, accessed, ks, cs)
            && (forall k | k in ks :: k in db.manifests && k in after.manifests)
            && (forall i, c | 0 <= i < |cs| && c in cs[i] :: c in db.manifests && c in after.manifests)
            && (BlobRefused(RepoAt(db, repo), NamingViews(db, repo, ks, cs), db.policy) ==>
                  BlobRefused(RepoAt(after, repo), NamingViews(after, repo, ks, cs), q))
  {
    var db := Run(policy, steps);
    RunKeeps(policy, steps);
    LookedAtAreRows(db, repo, d, accessed, ks, cs);
    SavingLooksAgain(db, q, repo, d, accessed, ks, cs, PolicySaved(db, q));
  }

  lemma SavingLooksAgain(
    db: Db, q: Policy, repo: RepoId, d: Digest, accessed: map<ManifestId, Time>, ks: seq<ManifestId>, cs: seq<seq<ManifestId>>, after: Db)
    requires VerdictsAgree(db.repos, db.manifests, db.links, db.findings, db.policy) && Tighter(db.policy, q)
    requires repo in db.repos && LooksAt(db, repo, d, accessed, ks, cs) && after == PolicySaved(db, q)
    requires (forall k | k in ks :: k in db.manifests) && forall i, c | 0 <= i < |cs| && c in cs[i] :: c in db.manifests
    ensures LooksAt(after, repo, d, accessed, ks, cs) && repo in after.repos && after.manifests == db.manifests
    ensures BlobRefused(RepoAt(db, repo), NamingViews(db, repo, ks, cs), db.policy) ==>
              BlobRefused(RepoAt(after, repo), NamingViews(after, repo, ks, cs), q)
  {
    assert Naming(after, repo, d) == Naming(db, repo, d);
    forall i | 0 <= i < |ks| ensures Children(after, ks[i]) == Children(db, ks[i]) {
    }
    var vs, ws := NamingViews(db, repo, ks, cs), NamingViews(after, repo, ks, cs);
    forall i | 0 <= i < |vs| ensures Rejudged(vs[i].0, ws[i].0) && AllRejudged(vs[i].1, ws[i].1) {
      assert ks[i] in ks;
      SavingRejudges(db, q, repo, ks[i]);
      SavingRejudgesAll(db, q, repo, cs[i]);
    }
    TighteningBlob(RepoAt(db, repo), vs, ws, db.policy, q);
  }
}
