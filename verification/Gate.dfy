/**
 Image policy gates: backend/app/docker/policy.py, with the blob verdict of
 backend/app/docker/registry.py. The source decides from counts grouped by
 (severity, fixable, kev); the specification decides from the findings themselves.
 */
module Gate {
  import opened Common

  datatype Severity = UNKNOWN | LOW | MEDIUM | HIGH | CRITICAL

  function Rank(s: Severity): nat {
    match s
    case UNKNOWN => 0
    case LOW => 1
    case MEDIUM => 2
    case HIGH => 3
    case CRITICAL => 4
  }

  datatype Finding = Finding(vuln: string, severity: Severity, fixed: Option<string>, kev: bool)
  {
    predicate Fixable() { fixed.Some? && fixed.value != "" }

    function Key(): GroupKey { GroupKey(severity, Fixable(), kev) }
  }

  datatype Rules = Rules(blockKev: bool, blockSeverity: Option<Severity>, onlyFixable: bool)

  datatype Policy = Policy(
    deny: set<string>, allow: set<string>, pull: Rules, push: Rules,
    scanningEnabled: bool, strictMode: bool, pushRequireScan: bool, maxScanBytes: nat)

  datatype Reason =
    | DenyList
    | KnownExploited(count: nat)
    | Threshold(count: nat, severity: Severity, fixableOnly: bool)
    | Quarantined
    | NotScannedYet
    | Unscannable

  /** `firm` is the source's DENIED; the other code, UNAVAILABLE, means try again. */
  datatype Verdict = Allowed | Refused(reason: Reason, firm: bool)

  // ---------------------------------------------------------------------
  // The plain statement
  // ---------------------------------------------------------------------

  /** What the gates count: findings whose risk has not been accepted. */
  function Unaccepted(findings: seq<Finding>, allow: set<string>): (r: seq<Finding>)
    ensures forall f :: f in r <==> f in findings && f.vuln !in allow
  {
    if findings == [] then []
    else (if findings[0].vuln in allow then [] else [findings[0]]) + Unaccepted(findings[1..], allow)
  }

  predicate AtThreshold(f: Finding, rules: Rules) {
    && rules.blockSeverity.Some? && Rank(f.severity) >= Rank(rules.blockSeverity.value)
    && (rules.onlyFixable ==> f.Fixable())
  }

  function CountKev(findings: seq<Finding>): nat {
    if findings == [] then 0 else (if findings[0].kev then 1 else 0) + CountKev(findings[1..])
  }

  function CountAtThreshold(findings: seq<Finding>, rules: Rules): (n: nat)
    ensures rules.blockSeverity.None? ==> n == 0
  {
    if findings == [] then 0
    else (if AtThreshold(findings[0], rules) then 1 else 0) + CountAtThreshold(findings[1..], rules)
  }

  /** `evaluate_rules`, stated over findings: the deny list, then known-exploited
      findings, then the severity threshold, each with its count. */
  function RulesVerdict(findings: seq<Finding>, policy: Policy, rules: Rules): Verdict {
    var open := Unaccepted(findings, policy.allow);
    if exists f | f in findings :: f.vuln in policy.deny then Refused(DenyList, true)
    else if rules.blockKev && CountKev(open) > 0 then Refused(KnownExploited(CountKev(open)), true)
    else if CountAtThreshold(open, rules) > 0 then
      Refused(Threshold(CountAtThreshold(open, rules), rules.blockSeverity.value, rules.onlyFixable), true)
    else Allowed
  }

  /** Refused exactly when some finding is denied, or an unaccepted one is known to
      be exploited with that rule on, or an unaccepted one reaches the threshold. */
  predicate Objectionable(f: Finding, policy: Policy, rules: Rules) {
    f.vuln in policy.deny || (f.vuln !in policy.allow && ((rules.blockKev && f.kev) || AtThreshold(f, rules)))
  }

  lemma {:induction false} CountsArePositive(findings: seq<Finding>, rules: Rules)
    ensures CountKev(findings) > 0 <==> exists f | f in findings :: f.kev
    ensures CountAtThreshold(findings, rules) > 0 <==> exists f | f in findings :: AtThreshold(f, rules)
  {
    if findings != [] {
      CountsArePositive(findings[1..], rules);
      assert forall f :: f in findings <==> f == findings[0] || f in findings[1..];
    }
  }

  lemma RulesVerdictIsPlain(findings: seq<Finding>, policy: Policy, rules: Rules)
    ensures RulesVerdict(findings, policy, rules).Refused? <==>
            exists f | f in findings :: Objectionable(f, policy, rules)
    ensures RulesVerdict(findings, policy, rules).Refused? ==> RulesVerdict(findings, policy, rules).firm
  {
    CountsArePositive(Unaccepted(findings, policy.allow), rules);
  }

  /** The findings a threshold catches, severity by severity; with `onlyFixable`, of
      those only the ones a fixed version is named for. */
  lemma ThresholdMeans(f: Finding, rules: Rules)
    ensures AtThreshold(f, rules) <==>
              && (rules.onlyFixable ==> f.fixed.Some? && f.fixed.value != "")
              && match rules.blockSeverity
                 case None => false
                 case Some(CRITICAL) => f.severity == CRITICAL
                 case Some(HIGH) => f.severity == HIGH || f.severity == CRITICAL
                 case Some(MEDIUM) => f.severity != UNKNOWN && f.severity != LOW
                 case Some(LOW) => f.severity != UNKNOWN
                 case Some(UNKNOWN) => true
  {
  }

  function KevAt(findings: seq<Finding>, from: nat): set<int> {
    set i | from <= i < |findings| && findings[i].kev
  }

  function ThresholdAt(findings: seq<Finding>, rules: Rules, from: nat): set<int> {
    set i | from <= i < |findings| && AtThreshold(findings[i], rules)
  }

  /** The counts a refusal names are numbers of findings. */
  lemma {:induction false} KevCardinality(findings: seq<Finding>, from: nat)
    requires from <= |findings|
    ensures CountKev(findings[from..]) == |KevAt(findings, from)|
    decreases |findings| - from
  {
    if from < |findings| {
      KevCardinality(findings, from + 1);
      assert findings[from..][1..] == findings[from + 1..];
      assert KevAt(findings, from) == KevAt(findings, from + 1) + if findings[from].kev then {from} else {};
    }
  }

  lemma {:induction false} ThresholdCardinality(findings: seq<Finding>, rules: Rules, from: nat)
    requires from <= |findings|
    ensures CountAtThreshold(findings[from..], rules) == |ThresholdAt(findings, rules, from)|
    decreases |findings| - from
  {
    if from < |findings| {
      ThresholdCardinality(findings, rules, from + 1);
      assert findings[from..][1..] == findings[from + 1..];
      var more := if AtThreshold(findings[from], rules) then {from} else {};
      assert ThresholdAt(findings, rules, from) == ThresholdAt(findings, rules, from + 1) + more;
    }
  }

  /** Which rule a refusal names: the deny list before anything else, then known
      exploits, then the threshold, each with the number of findings it caught. */
  lemma ReasonMeans(findings: seq<Finding>, policy: Policy, rules: Rules)
    ensures var v, open := RulesVerdict(findings, policy, rules), Unaccepted(findings, policy.allow);
            var denied := exists f | f in findings :: f.vuln in policy.deny;
            var exploited := rules.blockKev && KevAt(open, 0) != {};
            && (v == Refused(DenyList, true) <==> denied)
            && (v == Refused(KnownExploited(|KevAt(open, 0)|), true) <==> !denied && exploited)
            && (rules.blockSeverity.Some? ==>
                  (v == Refused(Threshold(|ThresholdAt(open, rules, 0)|, rules.blockSeverity.value, rules.onlyFixable), true)
                   <==> !denied && !exploited && ThresholdAt(open, rules, 0) != {}))
  {
    var open := Unaccepted(findings, policy.allow);
    KevCardinality(open, 0);
    ThresholdCardinality(open, rules, 0);
    assert open[0..] == open;
  }

  // ---------------------------------------------------------------------
  // The grouped form
  // ---------------------------------------------------------------------

  datatype GroupKey = GroupKey(severity: Severity, fixable: bool, kev: bool)

  function CountKeys(findings: seq<Finding>, keys: set<GroupKey>): nat {
    if findings == [] then 0 else (if findings[0].Key() in keys then 1 else 0) + CountKeys(findings[1..], keys)
  }

  /** The rows of `SELECT severity, fixable, kev, count(*) ... GROUP BY`: one per
      combination that occurs. */
  ghost predicate IsGrouping(rows: map<GroupKey, nat>, findings: seq<Finding>) {
    && (forall k :: k in rows <==> exists f | f in findings :: f.Key() == k)
    && (forall k | k in rows :: rows[k] == CountKeys(findings, {k}))
  }

  lemma {:induction false} CountKeysUnion(findings: seq<Finding>, a: set<GroupKey>, b: set<GroupKey>)
    requires a !! b
    ensures CountKeys(findings, a + b) == CountKeys(findings, a) + CountKeys(findings, b)
  {
    if findings != [] {
      CountKeysUnion(findings[1..], a, b);
    }
  }

  /** Two key sets that no finding tells apart count the same. */
  lemma {:induction false} CountKeysAgree(findings: seq<Finding>, a: set<GroupKey>, b: set<GroupKey>)
    requires forall f | f in findings :: f.Key() in a <==> f.Key() in b
    ensures CountKeys(findings, a) == CountKeys(findings, b)
  {
    if findings != [] {
      CountKeysAgree(findings[1..], a, b);
    }
  }

  datatype Counts = Counts(kev: nat, bySeverity: map<Severity, nat>, fixableBySeverity: map<Severity, nat>)

  function At(table: map<Severity, nat>, s: Severity): nat { if s in table then table[s] else 0 }

  function KevKeys(keys: set<GroupKey>): set<GroupKey> { set k | k in keys && k.kev }

  function SeverityKeys(keys: set<GroupKey>, s: Severity): set<GroupKey> { set k | k in keys && k.severity == s }

  function FixableKeys(keys: set<GroupKey>): set<GroupKey> { set k | k in keys && k.fixable }

  ghost predicate CountsFor(c: Counts, findings: seq<Finding>, keys: set<GroupKey>) {
    && c.kev == CountKeys(findings, KevKeys(keys))
    && (forall s :: At(c.bySeverity, s) == CountKeys(findings, SeverityKeys(keys, s)))
    && (forall s :: At(c.fixableBySeverity, s) == CountKeys(findings, SeverityKeys(FixableKeys(keys), s)))
  }

  lemma {:induction false} CountNone(findings: seq<Finding>)
    ensures CountKeys(findings, {}) == 0
  {
    if findings != [] {
      CountNone(findings[1..]);
    }
  }

  /** Adding one group adds its count wherever a selection of keys admits it. */
  lemma CountMore(findings: seq<Finding>, selected: set<GroupKey>, more: set<GroupKey>, k: GroupKey)
    requires k !in selected && (more == selected || more == selected + {k})
    ensures CountKeys(findings, more) ==
            CountKeys(findings, selected) + if k in more then CountKeys(findings, {k}) else 0
  {
  }

  lemma CountsForMore(c: Counts, c': Counts, findings: seq<Finding>, keys: set<GroupKey>, k: GroupKey, n: nat)
    requires CountsFor(c, findings, keys) && k !in keys && n == CountKeys(findings, {k})
    requires c'.kev == c.kev + if k.kev then n else 0
    requires c'.bySeverity == c.bySeverity[k.severity := At(c.bySeverity, k.severity) + n]
    requires c'.fixableBySeverity ==
             if k.fixable then c.fixableBySeverity[k.severity := At(c.fixableBySeverity, k.severity) + n]
             else c.fixableBySeverity
    ensures CountsFor(c', findings, keys + {k})
  {
    var keys' := keys + {k};
    assert KevKeys(keys') == if k.kev then KevKeys(keys) + {k} else KevKeys(keys);
    CountMore(findings, KevKeys(keys), KevKeys(keys'), k);
    forall s
      ensures At(c'.bySeverity, s) == CountKeys(findings, SeverityKeys(keys', s))
      ensures At(c'.fixableBySeverity, s) == CountKeys(findings, SeverityKeys(FixableKeys(keys'), s))
    {
      assert SeverityKeys(keys', s) == if k.severity == s then SeverityKeys(keys, s) + {k} else SeverityKeys(keys, s);
      CountMore(findings, SeverityKeys(keys, s), SeverityKeys(keys', s), k);
      var (f, f') := (SeverityKeys(FixableKeys(keys), s), SeverityKeys(FixableKeys(keys'), s));
      assert f' == if k.fixable && k.severity == s then f + {k} else f;
      CountMore(findings, f, f', k);
    }
  }

  /** `gate_counts`: the rows come in no particular order. */
  method GateCounts(rows: map<GroupKey, nat>, ghost findings: seq<Finding>) returns (c: Counts)
    requires IsGrouping(rows, findings)
    ensures CountsFor(c, findings, rows.Keys)
  {
    c := Counts(0, map[], map[]);
    var left := rows.Keys;
    CountNone(findings);
    assert CountsFor(c, findings, {}) by {
      assert KevKeys({}) == {} && FixableKeys({}) == {};
      assert forall s :: SeverityKeys({}, s) == {};
    }
    assert rows.Keys - left == {};
    while left != {}
      invariant left <= rows.Keys
      invariant CountsFor(c, findings, rows.Keys - left)
      decreases left
    {
      var k :| k in left;
      var n := rows[k];
      ghost var before := c;
      ghost var done := rows.Keys - left;
      c := c.(bySeverity := c.bySeverity[k.severity := At(c.bySeverity, k.severity) + n]);
      if k.fixable {
        c := c.(fixableBySeverity := c.fixableBySeverity[k.severity := At(c.fixableBySeverity, k.severity) + n]);
      }
      if k.kev {
        c := c.(kev := c.kev + n);
      }
      left := left - {k};
      CountsForMore(before, c, findings, done, k, n);
      assert rows.Keys - left == done + {k};
    }
    assert rows.Keys - left == rows.Keys;
  }

  /** `_threshold_hits` */
  function ThresholdHits(rules: Rules, c: Counts): nat {
    if rules.blockSeverity.None? then 0
    else SumAbove(if rules.onlyFixable then c.fixableBySeverity else c.bySeverity, Rank(rules.blockSeverity.value))
  }

  function SumAbove(table: map<Severity, nat>, floor: nat): nat {
    var n := (s: Severity) => if Rank(s) >= floor then At(table, s) else 0;
    n(UNKNOWN) + n(LOW) + n(MEDIUM) + n(HIGH) + n(CRITICAL)
  }

  lemma {:induction false} CountKevIsKeyed(findings: seq<Finding>, keys: set<GroupKey>)
    requires forall f | f in findings :: f.Key() in keys
    ensures CountKeys(findings, KevKeys(keys)) == CountKev(findings)
  {
    if findings != [] {
      assert findings[0].Key() in keys;
      CountKevIsKeyed(findings[1..], keys);
    }
  }

  predicate SelectedKey(k: GroupKey, rules: Rules, s: Severity) {
    k.severity == s && (rules.onlyFixable ==> k.fixable)
  }

  /** Hits split by severity: one finding adds one to its own severity's share. */
  lemma {:induction false} CountHitsIsKeyed(findings: seq<Finding>, keys: set<GroupKey>, rules: Rules)
    requires forall f | f in findings :: f.Key() in keys
    requires rules.blockSeverity.Some?
    ensures var n := (s: Severity) => if Rank(s) >= Rank(rules.blockSeverity.value)
                                      then CountKeys(findings, set k | k in keys && SelectedKey(k, rules, s)) else 0;
            CountAtThreshold(findings, rules) == n(UNKNOWN) + n(LOW) + n(MEDIUM) + n(HIGH) + n(CRITICAL)
  {
    if findings != [] {
      assert findings[0].Key() in keys;
      CountHitsIsKeyed(findings[1..], keys, rules);
    }
  }

  lemma ThresholdHitsCounts(c: Counts, findings: seq<Finding>, keys: set<GroupKey>, rules: Rules)
    requires CountsFor(c, findings, keys)
    requires forall f | f in findings :: f.Key() in keys
    ensures ThresholdHits(rules, c) == CountAtThreshold(findings, rules)
  {
    if rules.blockSeverity.Some? {
      CountHitsIsKeyed(findings, keys, rules);
      forall s: Severity
        ensures (set k | k in keys && SelectedKey(k, rules, s)) ==
                if rules.onlyFixable then SeverityKeys(FixableKeys(keys), s) else SeverityKeys(keys, s)
      {
      }
      var table := if rules.onlyFixable then c.fixableBySeverity else c.bySeverity;
      assert forall s :: At(table, s) == CountKeys(findings, set k | k in keys && SelectedKey(k, rules, s));
    }
  }

  /** `evaluate_rules` from the grouped rows reaches the verdict of the plain
      statement, reason and count included. */
  method EvaluateRules(findings: seq<Finding>, rows: map<GroupKey, nat>, policy: Policy, rules: Rules)
    returns (v: Verdict)
    requires IsGrouping(rows, Unaccepted(findings, policy.allow))
    ensures v == RulesVerdict(findings, policy, rules)
  {
    if exists f | f in findings :: f.vuln in policy.deny {
      return Refused(DenyList, true);
    }
    ghost var open := Unaccepted(findings, policy.allow);
    if !rules.blockKev && rules.blockSeverity.None? {
      return Allowed;
    }
    var counts := GateCounts(rows, open);
    CountKevIsKeyed(open, rows.Keys);
    ThresholdHitsCounts(counts, open, rows.Keys, rules);
    if rules.blockKev && counts.kev > 0 {
      return Refused(KnownExploited(counts.kev), true);
    }
    var hits := ThresholdHits(rules, counts);
    if hits > 0 {
      return Refused(Threshold(hits, rules.blockSeverity.value, rules.onlyFixable), true);
    }
    return Allowed;
  }

  // ---------------------------------------------------------------------
  // Pull, index and blob verdicts
  // ---------------------------------------------------------------------

  datatype Kind = Image | Index | Attestation | Artifact | Signature

  datatype ScanStatus = Unscanned | Queued | Scanning | Scanned | Failed | NotApplicable

  /** What a verdict reads of one manifest in one repository. `block` is the push
      verdict recorded on its link there; only a local repository has any. */
  datatype View = View(kind: Kind, status: ScanStatus, findings: seq<Finding>, block: Option<Reason>)

  datatype Repo = Repo(local: bool, quarantined: bool)

  /** One platform image of an index, as `_evaluate_index` judges it. */
  function ChildVerdict(repo: Repo, child: View, policy: Policy): Verdict {
    if repo.local && child.block.Some? then Refused(child.block.value, true)
    else if child.status == Scanned then RulesVerdict(child.findings, policy, policy.pull)
    else Allowed
  }

  /** `_evaluate_index`: the first platform image that is firmly refused. */
  function IndexVerdict(repo: Repo, children: seq<View>, policy: Policy): Verdict {
    if children == [] then Allowed
    else
      var v := if children[0].kind == Image then ChildVerdict(repo, children[0], policy) else Allowed;
      if v.Refused? && v.firm then v else IndexVerdict(repo, children[1..], policy)
  }

  /** `evaluate_pull` */
  function PullVerdict(repo: Repo, m: View, children: seq<View>, policy: Policy): Verdict {
    if repo.quarantined then Refused(Quarantined, true)
    else if repo.local && m.block.Some? then Refused(m.block.value, true)
    else if m.kind == Index then IndexVerdict(repo, children, policy)
    else if m.kind != Image then Allowed
    else if m.status == Scanned then RulesVerdict(m.findings, policy, policy.pull)
    else if !policy.scanningEnabled then Allowed
    else if !(policy.strictMode || (repo.local && policy.pushRequireScan)) then Allowed
    else if m.status == NotApplicable then Refused(Unscannable, true)
    else Refused(NotScannedYet, false)
  }

  /** `blob_pull_verdict` over the manifests that name the blob, most recently
      served first: one allowed manifest is enough, none at all allows. */
  method BlobVerdict(repo: Repo, naming: seq<(View, seq<View>)>, policy: Policy) returns (v: Verdict)
    ensures v.Refused? <==> BlobRefused(repo, naming, policy)
    ensures v.Refused? && !repo.quarantined ==> v == PullVerdict(repo, naming[0].0, naming[0].1, policy)
  {
    if repo.quarantined {
      return Refused(Quarantined, true);
    }
    var refusal := Allowed;
    for i := 0 to |naming|
      invariant forall j | 0 <= j < i :: PullVerdict(repo, naming[j].0, naming[j].1, policy).Refused?
      invariant refusal == if i == 0 then Allowed else PullVerdict(repo, naming[0].0, naming[0].1, policy)
    {
      var verdict := PullVerdict(repo, naming[i].0, naming[i].1, policy);
      if verdict.Allowed? {
        assert naming[i] in naming;
        return Allowed;
      }
      if refusal.Allowed? {
        refusal := verdict;
      }
    }
    return refusal;
  }

  lemma {:induction false} IndexVerdictIsPlain(repo: Repo, children: seq<View>, policy: Policy)
    ensures IndexVerdict(repo, children, policy).Refused? <==>
            exists c | c in children :: c.kind == Image && ChildVerdict(repo, c, policy).Refused?
    ensures IndexVerdict(repo, children, policy).Refused? ==> IndexVerdict(repo, children, policy).firm
  {
    if children != [] {
      IndexVerdictIsPlain(repo, children[1..], policy);
      RulesVerdictIsPlain(children[0].findings, policy, policy.pull);
      assert forall c :: c in children <==> c == children[0] || c in children[1..];
    }
  }

  /** A refusal says to try again exactly for an image whose scan is still owed. */
  lemma OnlyOwedScansRetry(repo: Repo, m: View, children: seq<View>, policy: Policy)
    ensures var v := PullVerdict(repo, m, children, policy);
            (v.Refused? && !v.firm <==>
              && !repo.quarantined && !(repo.local && m.block.Some?)
              && m.kind == Image && m.status != Scanned && m.status != NotApplicable
              && policy.scanningEnabled && (policy.strictMode || (repo.local && policy.pushRequireScan)))
            && (v.Refused? && !v.firm ==> v.reason == NotScannedYet)
  {
    IndexVerdictIsPlain(repo, children, policy);
    RulesVerdictIsPlain(m.findings, policy, policy.pull);
  }

  // ---------------------------------------------------------------------
  // Tightening
  // ---------------------------------------------------------------------

  predicate TighterRules(r: Rules, tighter: Rules) {
    && (r.blockKev ==> tighter.blockKev)
    && (r.blockSeverity.Some? ==>
          && tighter.blockSeverity.Some?
          && Rank(tighter.blockSeverity.value) <= Rank(r.blockSeverity.value)
          && (tighter.onlyFixable ==> r.onlyFixable))
  }

  predicate Tighter(p: Policy, tighter: Policy) {
    && p.deny <= tighter.deny && tighter.allow <= p.allow
    && TighterRules(p.pull, tighter.pull) && TighterRules(p.push, tighter.push)
    && (p.scanningEnabled ==> tighter.scanningEnabled)
    && (p.strictMode ==> tighter.strictMode) && (p.pushRequireScan ==> tighter.pushRequireScan)
  }

  lemma TighteningRules(findings: seq<Finding>, p: Policy, q: Policy, r: Rules, s: Rules)
    requires p.deny <= q.deny && q.allow <= p.allow && TighterRules(r, s)
    ensures RulesVerdict(findings, p, r).Refused? ==> RulesVerdict(findings, q, s).Refused?
  {
    RulesVerdictIsPlain(findings, p, r);
    RulesVerdictIsPlain(findings, q, s);
    if RulesVerdict(findings, p, r).Refused? {
      var f :| f in findings && Objectionable(f, p, r);
      assert Objectionable(f, q, s);
    }
  }

  /** The same manifest after the policy changed and the recorded push verdicts
      were computed again. */
  predicate Rejudged(v: View, w: View) {
    v.kind == w.kind && v.status == w.status && v.findings == w.findings && (v.block.Some? ==> w.block.Some?)
  }

  predicate AllRejudged(vs: seq<View>, ws: seq<View>) {
    |vs| == |ws| && forall i | 0 <= i < |vs| :: Rejudged(vs[i], ws[i])
  }

  lemma TighteningChild(repo: Repo, v: View, w: View, p: Policy, q: Policy)
    requires Tighter(p, q) && Rejudged(v, w)
    ensures ChildVerdict(repo, v, p).Refused? ==> ChildVerdict(repo, w, q).Refused?
  {
    TighteningRules(v.findings, p, q, p.pull, q.pull);
  }

  lemma TighteningIndex(repo: Repo, vs: seq<View>, ws: seq<View>, p: Policy, q: Policy)
    requires Tighter(p, q) && AllRejudged(vs, ws)
    ensures IndexVerdict(repo, vs, p).Refused? ==> IndexVerdict(repo, ws, q).Refused?
  {
    IndexVerdictIsPlain(repo, vs, p);
    IndexVerdictIsPlain(repo, ws, q);
    if IndexVerdict(repo, vs, p).Refused? {
      var c :| c in vs && c.kind == Image && ChildVerdict(repo, c, p).Refused?;
      var i :| 0 <= i < |vs| && vs[i] == c;
      TighteningChild(repo, c, ws[i], p, q);
      assert ws[i] in ws;
    }
  }

  /** Tightening any setting never turns a refused pull into an allowed one, for
      images, indexes and everything else. */
  lemma TighteningPull(repo: Repo, v: View, w: View, vs: seq<View>, ws: seq<View>, p: Policy, q: Policy)
    requires Tighter(p, q) && Rejudged(v, w) && AllRejudged(vs, ws)
    ensures PullVerdict(repo, v, vs, p).Refused? ==> PullVerdict(repo, w, ws, q).Refused?
  {
    TighteningIndex(repo, vs, ws, p, q);
    TighteningRules(v.findings, p, q, p.pull, q.pull);
  }

  predicate BlobRefused(repo: Repo, naming: seq<(View, seq<View>)>, policy: Policy) {
    repo.quarantined || (naming != [] && forall n | n in naming :: PullVerdict(repo, n.0, n.1, policy).Refused?)
  }

  /** ... and so never opens a layer, however many of the naming manifests the
      verdict looked at. */
  lemma TighteningBlob(
    repo: Repo, vs: seq<(View, seq<View>)>, ws: seq<(View, seq<View>)>, p: Policy, q: Policy)
    requires Tighter(p, q) && |vs| == |ws|
    requires forall i | 0 <= i < |vs| :: Rejudged(vs[i].0, ws[i].0) && AllRejudged(vs[i].1, ws[i].1)
    ensures BlobRefused(repo, vs, p) ==> BlobRefused(repo, ws, q)
  {
    if BlobRefused(repo, vs, p) && !repo.quarantined {
      forall n | n in ws ensures PullVerdict(repo, n.0, n.1, q).Refused? {
        var i :| 0 <= i < |ws| && ws[i] == n;
        assert vs[i] in vs;
        TighteningPull(repo, vs[i].0, ws[i].0, vs[i].1, ws[i].1, p, q);
      }
    }
  }
}
