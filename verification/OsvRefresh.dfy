/**
 The background CVE refresh of backend/app/main.py: `_scan_group`, which halves a batch
 that fails, and the loop of `_cve_refresh_task` over batches. The OSV scanner may fail
 on any call and answer for any version or none; `apply_to_version`, which is not part of
 this model, is taken to refresh `scanned_at`.
 */
module OsvRefresh {
  import opened Common

  type VersionId = nat
  type Time = int

  /** What the scanner does at its n-th call: raise, or answer for some of the batch. */
  datatype Scanner = Scanner(raises: (nat, seq<VersionId>) -> bool, answers: (nat, VersionId) -> bool)

  datatype Fate = Skipped | Applied | Unanswered

  datatype Handled = Handled(id: VersionId, fate: Fate)

  // ---------------------------------------------------------------------
  // One group
  // ---------------------------------------------------------------------

  function Answers(scanner: Scanner, items: seq<VersionId>, k: nat): (log: seq<Handled>)
    ensures |log| == |items|
    ensures forall i | 0 <= i < |log| :: log[i] == Handled(items[i], if scanner.answers(k, items[i]) then Applied else Unanswered)
  {
    seq(|items|, i requires 0 <= i < |items| =>
      Handled(items[i], if scanner.answers(k, items[i]) then Applied else Unanswered))
  }

  function Front(items: seq<VersionId>): (r: seq<VersionId>)
    ensures |r| == |items| / 2
  {
    items[..|items| / 2]
  }

  function Back(items: seq<VersionId>): (r: seq<VersionId>)
    ensures |r| == |items| - |items| / 2
  {
    items[|items| / 2..]
  }

  lemma HalvesJoin(items: seq<VersionId>)
    ensures Front(items) + Back(items) == items
  {
  }

  /** How many calls `_scan_group` makes, the first of them being the scanner's k-th. */
  function Calls(scanner: Scanner, items: seq<VersionId>, k: nat): nat
    requires items != []
    decreases |items|
  {
    if !scanner.raises(k, items) || |items| == 1 then 1
    else 1 + Calls(scanner, Front(items), k + 1) + Calls(scanner, Back(items), AfterFront(scanner, items, k))
  }

  /** The first call for the back half. */
  function AfterFront(scanner: Scanner, items: seq<VersionId>, k: nat): nat
    requires |items| > 1
    decreases |items|, 0
  {
    k + 1 + Calls(scanner, Front(items), k + 1)
  }

  /** What it does with each item, in order. */
  function Log(scanner: Scanner, items: seq<VersionId>, k: nat): seq<Handled>
    requires items != []
    decreases |items|
  {
    if !scanner.raises(k, items) then Answers(scanner, items, k)
    else if |items| == 1 then [Handled(items[0], Skipped)]
    else Log(scanner, Front(items), k + 1) + Log(scanner, Back(items), AfterFront(scanner, items, k))
  }

  lemma LogUnfolds(scanner: Scanner, items: seq<VersionId>, k: nat)
    requires items != []
    ensures !scanner.raises(k, items) ==> Calls(scanner, items, k) == 1 && Log(scanner, items, k) == Answers(scanner, items, k)
    ensures scanner.raises(k, items) && |items| == 1 ==>
              Calls(scanner, items, k) == 1 && Log(scanner, items, k) == [Handled(items[0], Skipped)]
    ensures scanner.raises(k, items) && |items| > 1 ==>
              Calls(scanner, items, k) == AfterFront(scanner, items, k) - k + Calls(scanner, Back(items), AfterFront(scanner, items, k))
              && Log(scanner, items, k) == Log(scanner, Front(items), k + 1) + Log(scanner, Back(items), AfterFront(scanner, items, k))
  {
  }

  function Ids(log: seq<Handled>): (r: seq<VersionId>)
    ensures |r| == |log|
    ensures forall i | 0 <= i < |r| :: r[i] == log[i].id
  {
    seq(|log|, i requires 0 <= i < |log| => log[i].id)
  }

  lemma IdsJoin(a: seq<Handled>, b: seq<Handled>)
    ensures Ids(a + b) == Ids(a) + Ids(b)
  {
  }

  /** Whatever the scanner does, every item is dealt with exactly once, in order, in at
      most 2n - 1 calls. */
  lemma {:induction false} EveryItemOnce(scanner: Scanner, items: seq<VersionId>, k: nat)
    requires items != []
    ensures Ids(Log(scanner, items, k)) == items
    ensures 1 <= Calls(scanner, items, k) <= 2 * |items| - 1
    decreases |items|
  {
    if scanner.raises(k, items) && |items| > 1 {
      EveryItemOnce(scanner, Front(items), k + 1);
      EveryItemOnce(scanner, Back(items), AfterFront(scanner, items, k));
      HalvesJoin(items);
      IdsJoin(Log(scanner, Front(items), k + 1), Log(scanner, Back(items), AfterFront(scanner, items, k)));
    }
  }

  predicate HasPoison(poison: set<VersionId>, items: seq<VersionId>) { exists x :: x in items && x in poison }

  /** A scanner that raises exactly on batches with a poisonous item, and otherwise
      answers each version the same way every time. */
  function PoisonScanner(poison: set<VersionId>, answered: set<VersionId>): Scanner {
    Scanner((k: nat, items: seq<VersionId>) => HasPoison(poison, items), (k: nat, x: VersionId) => x in answered)
  }

  lemma PoisonScannerRaises(poison: set<VersionId>, answered: set<VersionId>, k: nat, items: seq<VersionId>)
    ensures PoisonScanner(poison, answered).raises(k, items) <==> HasPoison(poison, items)
  {
  }

  function FateOf(poison: set<VersionId>, answered: set<VersionId>, x: VersionId): Fate {
    if x in poison then Skipped else if x in answered then Applied else Unanswered
  }

  /** Such a scanner costs exactly its poisonous items: those are skipped and every
      other one is handled as if they were not there. */
  lemma {:induction false} ExactlyPoisonSkipped(poison: set<VersionId>, answered: set<VersionId>, items: seq<VersionId>, k: nat)
    requires items != []
    ensures Log(PoisonScanner(poison, answered), items, k) == Fates(poison, answered, items)
    decreases |items|
  {
    var scanner := PoisonScanner(poison, answered);
    PoisonScannerRaises(poison, answered, k, items);
    if !HasPoison(poison, items) {
      NobodySkipped(poison, answered, items, k);
    } else if |items| == 1 {
      assert items == [items[0]];
    } else {
      ExactlyPoisonSkipped(poison, answered, Front(items), k + 1);
      ExactlyPoisonSkipped(poison, answered, Back(items), AfterFront(scanner, items, k));
      HalvesJoin(items);
      FatesJoin(poison, answered, items, Front(items), Back(items));
    }
  }

  lemma FatesJoin(
    poison: set<VersionId>, answered: set<VersionId>, items: seq<VersionId>, front: seq<VersionId>, back: seq<VersionId>)
    requires items == front + back
    ensures Fates(poison, answered, items) == Fates(poison, answered, front) + Fates(poison, answered, back)
  {
  }

  function Fates(poison: set<VersionId>, answered: set<VersionId>, items: seq<VersionId>): (r: seq<Handled>)
    ensures |r| == |items|
    ensures forall i | 0 <= i < |r| :: r[i] == Handled(items[i], FateOf(poison, answered, items[i]))
  {
    seq(|items|, i requires 0 <= i < |items| => Handled(items[i], FateOf(poison, answered, items[i])))
  }

  lemma NobodySkipped(poison: set<VersionId>, answered: set<VersionId>, items: seq<VersionId>, k: nat)
    requires !HasPoison(poison, items)
    ensures Answers(PoisonScanner(poison, answered), items, k) == Fates(poison, answered, items)
  {
  }

  /** How often a batch of n can be halved. */
  function Halvings(n: nat): nat {
    if n <= 1 then 0 else 1 + Halvings((n + 1) / 2)
  }

  lemma {:induction false} HalvingsGrow(m: nat, n: nat)
    requires m <= n
    ensures Halvings(m) <= Halvings(n)
    decreases n
  {
    if m > 1 {
      HalvingsGrow((m + 1) / 2, (n + 1) / 2);
    }
  }

  function PoisonCount(poison: set<VersionId>, items: seq<VersionId>): nat {
    if items == [] then 0
    else PoisonCount(poison, items[..|items| - 1]) + if items[|items| - 1] in poison then 1 else 0
  }

  lemma {:induction false} PoisonSplits(poison: set<VersionId>, a: seq<VersionId>, b: seq<VersionId>)
    ensures PoisonCount(poison, a + b) == PoisonCount(poison, a) + PoisonCount(poison, b)
    ensures HasPoison(poison, b) <==> PoisonCount(poison, b) > 0
    decreases |b|
  {
    if b == [] {
      assert a + b == a;
    } else {
      PoisonSplits(poison, a, b[..|b| - 1]);
      assert (a + b)[..|a + b| - 1] == a + b[..|b| - 1];
      assert b == b[..|b| - 1] + [b[|b| - 1]];
    }
  }

  /** Two more calls per poisonous item and halving. */
  function CallBound(p: nat, h: nat): nat {
    if p == 0 then 1 else 2 * h + CallBound(p - 1, h)
  }

  lemma {:induction false} CallBoundIs(p: nat, h: nat)
    ensures CallBound(p, h) == 1 + 2 * p * h
  {
    if p > 0 {
      CallBoundIs(p - 1, h);
      assert 2 * p * h == 2 * (p - 1) * h + 2 * h;
    }
  }

  lemma {:induction false} CallsAddUp(p: nat, q: nat, g: nat, h: nat)
    requires g <= h
    ensures CallBound(p, g) + CallBound(q, h) + 2 * (p + q) <= CallBound(p + q, h + 1) + 1
  {
    if p > 0 {
      CallsAddUp(p - 1, q, g, h);
    } else if q > 0 {
      CallsAddUp(0, q - 1, g, h);
    }
  }

  lemma {:induction false} CallsWithin(poison: set<VersionId>, answered: set<VersionId>, items: seq<VersionId>, k: nat)
    requires items != []
    ensures Calls(PoisonScanner(poison, answered), items, k) <= CallBound(PoisonCount(poison, items), Halvings(|items|))
    decreases |items|
  {
    var scanner := PoisonScanner(poison, answered);
    PoisonScannerRaises(poison, answered, k, items);
    if HasPoison(poison, items) && |items| > 1 {
      var front, back := Front(items), Back(items);
      CallsWithin(poison, answered, front, k + 1);
      CallsWithin(poison, answered, back, AfterFront(scanner, items, k));
      PoisonHalves(poison, items, front, back);
      HalvingsHalf(|items|);
      CallsAddUp(PoisonCount(poison, front), PoisonCount(poison, back), Halvings(|front|), Halvings(|back|));
    } else {
      assert Calls(scanner, items, k) == 1;
    }
  }

  /** A few poisonous items cost a few calls: at most two per item and halving. */
  lemma FewPoisonFewCalls(poison: set<VersionId>, answered: set<VersionId>, items: seq<VersionId>, k: nat)
    requires items != []
    ensures Calls(PoisonScanner(poison, answered), items, k) <= 1 + 2 * PoisonCount(poison, items) * Halvings(|items|)
  {
    CallsWithin(poison, answered, items, k);
    CallBoundIs(PoisonCount(poison, items), Halvings(|items|));
  }

  lemma PoisonHalves(poison: set<VersionId>, items: seq<VersionId>, front: seq<VersionId>, back: seq<VersionId>)
    requires HasPoison(poison, items) && front == Front(items) && back == Back(items)
    ensures PoisonCount(poison, items) == PoisonCount(poison, front) + PoisonCount(poison, back) > 0
  {
    HalvesJoin(items);
    assert items == [] + items;
    PoisonSplits(poison, front, back);
    PoisonSplits(poison, [], items);
  }

  lemma HalvingsHalf(n: nat)
    requires n > 1
    ensures Halvings(n / 2) <= Halvings(n - n / 2) && Halvings(n) == Halvings(n - n / 2) + 1
  {
    HalvingsGrow(n / 2, n - n / 2);
    assert (n + 1) / 2 == n - n / 2;
  }

  // ---------------------------------------------------------------------
  // The pass
  // ---------------------------------------------------------------------

  function UnansweredIn(log: seq<Handled>): set<VersionId> { set h | h in log && h.fate.Unanswered? :: h.id }

  /** Everything but an unanswered version gets a fresh `scanned_at`. */
  function Written(scannedAt: map<VersionId, Option<Time>>, log: seq<Handled>, now: Time): map<VersionId, Option<Time>> {
    map x | x in scannedAt :: if Refreshed(log, x) then Some(now) else scannedAt[x]
  }

  predicate Refreshed(log: seq<Handled>, x: VersionId) { exists h :: h in log && h.id == x && !h.fate.Unanswered? }

  predicate Stale(scannedAt: map<VersionId, Option<Time>>, cutoff: Time, x: VersionId) {
    x in scannedAt && (scannedAt[x].None? || scannedAt[x].value < cutoff)
  }

  function Backlog(scannedAt: map<VersionId, Option<Time>>, cutoff: Time, deferred: set<VersionId>): set<VersionId> {
    set x | x in scannedAt && Stale(scannedAt, cutoff, x) && x !in deferred
  }

  /** Never scanned first, then oldest. */
  predicate NotAfter(scannedAt: map<VersionId, Option<Time>>, x: VersionId, y: VersionId)
    requires x in scannedAt && y in scannedAt
  {
    scannedAt[x].None? || (scannedAt[y].Some? && scannedAt[x].value <= scannedAt[y].value)
  }

  predicate Distinct(xs: seq<VersionId>) { forall i, j | 0 <= i < j < |xs| :: xs[i] != xs[j] }

  function Members(xs: seq<VersionId>): set<VersionId> { set x | x in xs }

  /** What the query returns: the head of the backlog, up to the batch size. */
  predicate IsBatch(
    scannedAt: map<VersionId, Option<Time>>, backlog: set<VersionId>, size: nat, rows: seq<VersionId>)
    requires backlog <= scannedAt.Keys
  {
    && Distinct(rows) && Members(rows) <= backlog && |rows| <= size
    && (|rows| < size ==> Members(rows) == backlog)
    && (forall x, y | x in rows && y in backlog && y !in rows :: NotAfter(scannedAt, x, y))
  }

  class Pass {
    var scannedAt: map<VersionId, Option<Time>>
    var calls: nat

    constructor (scannedAt: map<VersionId, Option<Time>>)
      ensures this.scannedAt == scannedAt && calls == 0
    {
      this.scannedAt, calls := scannedAt, 0;
    }

    /** `_scan_group` */
    method ScanGroup(scanner: Scanner, items: seq<VersionId>, now: Time) returns (unanswered: set<VersionId>)
      requires items != [] && Members(items) <= scannedAt.Keys
      modifies this
      ensures calls == old(calls) + Calls(scanner, items, old(calls))
      ensures scannedAt == Written(old(scannedAt), Log(scanner, items, old(calls)), now)
      ensures unanswered == UnansweredIn(Log(scanner, items, old(calls)))
      decreases |items|, 1
    {
      var k := calls;
      calls := calls + 1;
      LogUnfolds(scanner, items, k);
      if !scanner.raises(k, items) {
        unanswered := ApplyAnswers(scanner, items, k, now);
        return;
      }
      if |items| == 1 {
        assert items[0] in Members(items);
        WrittenOne(scannedAt, items[0], now);
        scannedAt := scannedAt[items[0] := Some(now)];
        return {};
      }
      unanswered := ScanHalves(scanner, items, k, now);
    }

    /** The retry of a batch whose k-th call failed. */
    method ScanHalves(scanner: Scanner, items: seq<VersionId>, ghost k: nat, now: Time) returns (unanswered: set<VersionId>)
      requires |items| > 1 && Members(items) <= scannedAt.Keys && calls == k + 1
      modifies this
      ensures calls == AfterFront(scanner, items, k) + Calls(scanner, Back(items), AfterFront(scanner, items, k))
      ensures var log := Log(scanner, Front(items), k + 1) + Log(scanner, Back(items), AfterFront(scanner, items, k));
              scannedAt == Written(old(scannedAt), log, now) && unanswered == UnansweredIn(log)
      decreases |items|, 0
    {
      HalfMembers(items);
      WrittenTwice(scannedAt, Log(scanner, Front(items), k + 1), Log(scanner, Back(items), AfterFront(scanner, items, k)), now);
      var mid := |items| / 2;
      var front := ScanGroup(scanner, items[..mid], now);
      var back := ScanGroup(scanner, items[mid..], now);
      return front + back;
    }

    method ApplyAnswers(scanner: Scanner, items: seq<VersionId>, k: nat, now: Time) returns (unanswered: set<VersionId>)
      requires Members(items) <= scannedAt.Keys
      modifies this`scannedAt
      ensures scannedAt == Written(old(scannedAt), Answers(scanner, items, k), now)
      ensures unanswered == UnansweredIn(Answers(scanner, items, k))
    {
      unanswered := {};
      ghost var log := Answers(scanner, items, k);
      for i := 0 to |items|
        invariant scannedAt == Written(old(scannedAt), log[..i], now)
        invariant unanswered == UnansweredIn(log[..i])
      {
        assert items[i] in Members(items);
        WrittenNext(old(scannedAt), log, i, now);
        if !scanner.answers(k, items[i]) {
          unanswered := unanswered + {items[i]};
        } else {
          scannedAt := scannedAt[items[i] := Some(now)];
        }
      }
      assert log[..|log|] == log;
    }

    /** One batch: a call of `_scan_group` for each ecosystem in it. */
    method ScanBatch(scanner: Scanner, ecosystem: VersionId -> Ecosystem, rows: seq<VersionId>, now: Time)
      returns (unanswered: set<VersionId>)
      requires Distinct(rows) && Members(rows) <= scannedAt.Keys
      modifies this
      ensures unanswered <= Members(rows)
      ensures scannedAt == RefreshedBut(old(scannedAt), Members(rows), unanswered, now)
    {
      var order, grouped := GroupRows(rows, ecosystem);
      unanswered := {};
      ghost var done: set<VersionId> := {};
      assert scannedAt == RefreshedBut(scannedAt, {}, {}, now);
      for i := 0 to |order|
        invariant unanswered <= done <= Members(rows)
        invariant done == Within(rows, ecosystem, order[..i])
        invariant scannedAt == RefreshedBut(old(scannedAt), done, unanswered, now)
      {
        var items := grouped[order[i]];
        assert IsGroup(rows, ecosystem, order[i], items);
        GroupIsNext(rows, ecosystem, order, i, items);
        var before := scannedAt;
        ghost var log := Log(scanner, items, calls);
        LogRefreshes(scanner, items, calls, before, now);
        var more := ScanGroup(scanner, items, now);
        RefreshedTwice(old(scannedAt), done, unanswered, Members(items), more, now);
        unanswered := unanswered + more;
        done := done + Members(items);
      }
      assert order[..|order|] == order;
      assert done == Members(rows);
    }

    /** The batch query. */
    method SelectBatch(cutoff: Time, deferred: set<VersionId>, size: nat) returns (rows: seq<VersionId>)
      ensures IsBatch(scannedAt, Backlog(scannedAt, cutoff, deferred), size, rows)
    {
      rows := [];
      var left := set x | x in scannedAt && Stale(scannedAt, cutoff, x) && x !in deferred;
      ghost var backlog := left;
      while left != {} && |rows| < size
        invariant backlog <= scannedAt.Keys && Members(rows) <= scannedAt.Keys && left <= scannedAt.Keys
        invariant Members(rows) + left == backlog && Members(rows) !! left && Distinct(rows) && |rows| <= size
        invariant forall x, y | x in rows && y in left :: NotAfter(scannedAt, x, y)
        decreases left
      {
        var x := First(scannedAt, left);
        assert Members(rows + [x]) == Members(rows) + {x};
        rows, left := rows + [x], left - {x};
      }
    }

    /** `_cve_refresh_task`; `inTime` says whether the budget lasts for another round. */
    method Refresh(
      scanner: Scanner, ecosystem: VersionId -> Ecosystem, size: nat, cutoff: Time, now: Time, inTime: nat -> bool)
      returns (total: nat, ghost selected: seq<VersionId>, ghost unanswered: set<VersionId>, ghost ending: Ending)
      requires cutoff <= now
      modifies this
      ensures Distinct(selected) && total == |selected| && unanswered <= Members(selected)
      ensures Members(selected) <= Backlog(old(scannedAt), cutoff, {})
      ensures scannedAt == RefreshedBut(old(scannedAt), Members(selected), unanswered, now)
      ensures ending.Cleared? && size > 0 ==> Members(selected) == Backlog(old(scannedAt), cutoff, {})
    {
      total, selected, unanswered, ending := 0, [], {}, OutOfTime;
      var deferred: set<VersionId> := {};
      var round := 0;
      assert scannedAt == RefreshedBut(scannedAt, {}, {}, now);
      while inTime(round)
        invariant Distinct(selected) && total == |selected| && unanswered == deferred <= Members(selected)
        invariant Members(selected) <= Backlog(old(scannedAt), cutoff, {})
        invariant scannedAt == RefreshedBut(old(scannedAt), Members(selected), deferred, now)
        decreases |Backlog(old(scannedAt), cutoff, {})| - |selected|
      {
        round := round + 1;
        BacklogShrinks(old(scannedAt), cutoff, now, Members(selected), deferred);
        var rows := SelectBatch(cutoff, deferred, size);
        if rows == [] {
          ending := Cleared;
          break;
        }
        ghost var before := scannedAt;
        var missing := ScanBatch(scanner, ecosystem, rows, now);
        total := total + |rows|;
        BatchJoins(old(scannedAt), cutoff, selected, deferred, rows, missing, now);
        selected, unanswered := selected + rows, unanswered + missing;
        if |rows| < size {
          ending := Cleared;
          break;
        }
        if |missing| == |rows| {
          ending := Refused;
          break;
        }
        deferred := deferred + missing;
      }
    }
  }

  datatype Ending = Cleared | Refused | OutOfTime

  type Ecosystem = string

  /** Rows of the ecosystems in `order`. */
  function Within(rows: seq<VersionId>, ecosystem: VersionId -> Ecosystem, order: seq<Ecosystem>): set<VersionId> {
    set x | x in rows && ecosystem(x) in order
  }

  /** The rows in `done`, but for the unanswered ones, have been scanned now. */
  function RefreshedBut(
    scannedAt: map<VersionId, Option<Time>>, done: set<VersionId>, unanswered: set<VersionId>, now: Time)
    : map<VersionId, Option<Time>>
  {
    map x | x in scannedAt :: if x in done && x !in unanswered then Some(now) else scannedAt[x]
  }

  lemma RefreshedTwice(
    scannedAt: map<VersionId, Option<Time>>, a: set<VersionId>, u: set<VersionId>, b: set<VersionId>, v: set<VersionId>, now: Time)
    requires a !! b && u <= a && v <= b
    ensures RefreshedBut(RefreshedBut(scannedAt, a, u, now), b, v, now) == RefreshedBut(scannedAt, a + b, u + v, now)
  {
  }

  /** With distinct items, a version is refreshed exactly when it is not unanswered. */
  lemma LogRefreshes(scanner: Scanner, items: seq<VersionId>, k: nat, scannedAt: map<VersionId, Option<Time>>, now: Time)
    requires items != [] && Distinct(items)
    ensures var log := Log(scanner, items, k);
            UnansweredIn(log) <= Members(items)
            && Written(scannedAt, log, now) == RefreshedBut(scannedAt, Members(items), UnansweredIn(log), now)
  {
    EveryItemOnce(scanner, items, k);
    OneFateEach(Log(scanner, items, k), items);
  }

  lemma OneFateEach(log: seq<Handled>, items: seq<VersionId>)
    requires Ids(log) == items && Distinct(items)
    ensures UnansweredIn(log) <= Members(items)
    ensures forall x :: Refreshed(log, x) <==> x in items && x !in UnansweredIn(log)
  {
  }

  /** `grouped.setdefault(eco, []).append(...)` */
  method GroupRows(rows: seq<VersionId>, ecosystem: VersionId -> Ecosystem)
    returns (order: seq<Ecosystem>, grouped: map<Ecosystem, seq<VersionId>>)
    ensures Ordered(order, grouped.Keys) && Grouped(rows, ecosystem, grouped)
  {
    order, grouped := [], map[];
    for i := 0 to |rows|
      invariant Ordered(order, grouped.Keys) && Grouped(rows[..i], ecosystem, grouped)
    {
      var e := ecosystem(rows[i]);
      var after := grouped[e := GroupWith(grouped, e, rows[i])];
      assert rows[..i + 1] == rows[..i] + [rows[i]];
      GroupsGrow(rows[..i], rows[i], ecosystem, grouped, e, after);
      if e in grouped {
        assert after.Keys == grouped.Keys;
      } else {
        assert after.Keys == grouped.Keys + {e};
        OrderGrows(order, grouped.Keys, e);
        order := order + [e];
      }
      grouped := after;
    }
    assert rows[..|rows|] == rows;
  }

  /** Each key once, in some order. */
  ghost predicate Ordered(order: seq<Ecosystem>, keys: set<Ecosystem>) {
    && (forall i, j | 0 <= i < j < |order| :: order[i] != order[j])
    && (forall e :: e in order <==> e in keys)
  }

  predicate IsGroup(rows: seq<VersionId>, ecosystem: VersionId -> Ecosystem, e: Ecosystem, group: seq<VersionId>) {
    group == Filtered(rows, ecosystem, e) && group != []
  }

  /** Each ecosystem's rows, in the order they came. */
  ghost predicate Grouped(rows: seq<VersionId>, ecosystem: VersionId -> Ecosystem, grouped: map<Ecosystem, seq<VersionId>>) {
    && (forall e | e in grouped :: IsGroup(rows, ecosystem, e, grouped[e]))
    && (forall x | x in rows :: ecosystem(x) in grouped)
  }

  function Filtered(rows: seq<VersionId>, ecosystem: VersionId -> Ecosystem, e: Ecosystem): seq<VersionId> {
    if rows == [] then []
    else Filtered(rows[..|rows| - 1], ecosystem, e)
         + if ecosystem(rows[|rows| - 1]) == e then [rows[|rows| - 1]] else []
  }

  lemma {:induction false} FilteredMembers(rows: seq<VersionId>, ecosystem: VersionId -> Ecosystem, e: Ecosystem)
    ensures forall x :: x in Filtered(rows, ecosystem, e) <==> x in rows && ecosystem(x) == e
  {
    if rows != [] {
      FilteredMembers(rows[..|rows| - 1], ecosystem, e);
      assert rows == rows[..|rows| - 1] + [rows[|rows| - 1]];
    }
  }

  lemma {:induction false} FilteredDistinct(rows: seq<VersionId>, ecosystem: VersionId -> Ecosystem, e: Ecosystem)
    requires Distinct(rows)
    ensures Distinct(Filtered(rows, ecosystem, e))
  {
    if rows != [] {
      FilteredDistinct(rows[..|rows| - 1], ecosystem, e);
      FilteredMembers(rows[..|rows| - 1], ecosystem, e);
    }
  }

  lemma {:induction false} NoneFiltered(rows: seq<VersionId>, ecosystem: VersionId -> Ecosystem, e: Ecosystem)
    requires forall x | x in rows :: ecosystem(x) != e
    ensures Filtered(rows, ecosystem, e) == []
  {
    if rows != [] {
      NoneFiltered(rows[..|rows| - 1], ecosystem, e);
    }
  }

  lemma FilteredNext(rows: seq<VersionId>, x: VersionId, ecosystem: VersionId -> Ecosystem, e: Ecosystem)
    ensures Filtered(rows + [x], ecosystem, e) == Filtered(rows, ecosystem, e) + if ecosystem(x) == e then [x] else []
  {
  }

  lemma OrderGrows(order: seq<Ecosystem>, keys: set<Ecosystem>, e: Ecosystem)
    requires Ordered(order, keys) && e !in keys
    ensures Ordered(order + [e], keys + {e})
  {
  }

  /** The group of `x`'s ecosystem after `x`. */
  function GroupWith(grouped: map<Ecosystem, seq<VersionId>>, e: Ecosystem, x: VersionId): seq<VersionId> {
    if e in grouped then grouped[e] + [x] else [x]
  }

  lemma GroupsGrow(
    rows: seq<VersionId>, x: VersionId, ecosystem: VersionId -> Ecosystem, grouped: map<Ecosystem, seq<VersionId>>,
    e: Ecosystem, after: map<Ecosystem, seq<VersionId>>)
    requires Grouped(rows, ecosystem, grouped) && e == ecosystem(x) && after == grouped[e := GroupWith(grouped, e, x)]
    ensures Grouped(rows + [x], ecosystem, after)
  {
    if e !in grouped {
      NoneFiltered(rows, ecosystem, e);
    }
    forall f | f in after ensures IsGroup(rows + [x], ecosystem, f, after[f]) {
      FilteredNext(rows, x, ecosystem, f);
      assert f in grouped ==> IsGroup(rows, ecosystem, f, grouped[f]);
    }
    forall y | y in rows + [x] ensures ecosystem(y) in after {
      assert y in rows || y == x;
    }
  }

  lemma GroupIsNext(rows: seq<VersionId>, ecosystem: VersionId -> Ecosystem, order: seq<Ecosystem>, i: nat, items: seq<VersionId>)
    requires Distinct(rows) && i < |order| && forall j | 0 <= j < i :: order[j] != order[i]
    requires items == Filtered(rows, ecosystem, order[i])
    ensures Distinct(items) && Members(items) <= Members(rows) && Members(items) !! Within(rows, ecosystem, order[..i])
    ensures Within(rows, ecosystem, order[..i + 1]) == Within(rows, ecosystem, order[..i]) + Members(items)
  {
    FilteredDistinct(rows, ecosystem, order[i]);
    FilteredMembers(rows, ecosystem, order[i]);
    assert order[..i + 1] == order[..i] + [order[i]];
  }

  method First(scannedAt: map<VersionId, Option<Time>>, left: set<VersionId>) returns (first: VersionId)
    requires left != {} && left <= scannedAt.Keys
    ensures first in left && forall y | y in left :: NotAfter(scannedAt, first, y)
  {
    first :| first in left;
    var rest := left - {first};
    while rest != {}
      invariant rest <= left && first in left
      invariant forall y | y in left - rest :: NotAfter(scannedAt, first, y)
      decreases rest
    {
      var y :| y in rest;
      ghost var seen, best := left - rest, first;
      if !NotAfter(scannedAt, first, y) {
        first := y;
      }
      rest := rest - {y};
      forall z | z in left - rest ensures NotAfter(scannedAt, first, z) {
        assert z == y || z in seen;
        assert z in seen ==> NotAfter(scannedAt, best, z);
      }
    }
  }

  /** What is still to be selected is what was not selected yet. */
  lemma BacklogShrinks(
    scannedAt: map<VersionId, Option<Time>>, cutoff: Time, now: Time, selected: set<VersionId>, deferred: set<VersionId>)
    requires cutoff <= now && deferred <= selected <= Backlog(scannedAt, cutoff, {})
    ensures Backlog(RefreshedBut(scannedAt, selected, deferred, now), cutoff, deferred) == Backlog(scannedAt, cutoff, {}) - selected
  {
  }

  lemma BatchJoins(
    scannedAt: map<VersionId, Option<Time>>, cutoff: Time, selected: seq<VersionId>, deferred: set<VersionId>,
    rows: seq<VersionId>, missing: set<VersionId>, now: Time)
    requires Distinct(selected) && Distinct(rows) && deferred <= Members(selected) && missing <= Members(rows)
    requires Members(selected) <= Backlog(scannedAt, cutoff, {}) && Members(rows) <= Backlog(scannedAt, cutoff, {}) - Members(selected)
    ensures Distinct(selected + rows) && Members(selected + rows) == Members(selected) + Members(rows)
    ensures |selected + rows| <= |Backlog(scannedAt, cutoff, {})|
    ensures RefreshedBut(RefreshedBut(scannedAt, Members(selected), deferred, now), Members(rows), missing, now)
            == RefreshedBut(scannedAt, Members(selected + rows), deferred + missing, now)
  {
    RefreshedTwice(scannedAt, Members(selected), deferred, Members(rows), missing, now);
    forall x | x in rows ensures x !in selected {
      assert x in Members(rows) && x !in Members(selected);
    }
    assert Members(selected + rows) == Members(selected) + Members(rows);
    DistinctJoin(selected, rows);
    DistinctCount(selected + rows, Backlog(scannedAt, cutoff, {}));
  }

  lemma DistinctJoin(a: seq<VersionId>, b: seq<VersionId>)
    requires Distinct(a) && Distinct(b) && forall x | x in b :: x !in a
    ensures Distinct(a + b)
  {
    var c := a + b;
    forall i, j | 0 <= i < j < |c| ensures c[i] != c[j] {
      if i < |a| <= j {
        assert c[j] in b && c[i] in a;
      }
    }
  }

  lemma {:induction false} DistinctCount(xs: seq<VersionId>, all: set<VersionId>)
    requires Distinct(xs) && Members(xs) <= all
    ensures |xs| <= |all|
    decreases |xs|
  {
    if xs != [] {
      var x := xs[|xs| - 1];
      assert x in Members(xs);
      forall y | y in Members(xs[..|xs| - 1]) ensures y in all - {x} {
      }
      DistinctCount(xs[..|xs| - 1], all - {x});
    }
  }

  lemma HalfMembers(items: seq<VersionId>)
    ensures Members(Front(items)) <= Members(items) && Members(Back(items)) <= Members(items)
  {
  }

  lemma WrittenOne(scannedAt: map<VersionId, Option<Time>>, x: VersionId, now: Time)
    requires x in scannedAt
    ensures Written(scannedAt, [Handled(x, Skipped)], now) == scannedAt[x := Some(now)]
    ensures UnansweredIn([Handled(x, Skipped)]) == {}
  {
  }

  lemma WrittenTwice(scannedAt: map<VersionId, Option<Time>>, a: seq<Handled>, b: seq<Handled>, now: Time)
    ensures Written(Written(scannedAt, a, now), b, now) == Written(scannedAt, a + b, now)
    ensures UnansweredIn(a) + UnansweredIn(b) == UnansweredIn(a + b)
  {
  }

  lemma WrittenNext(scannedAt: map<VersionId, Option<Time>>, log: seq<Handled>, i: nat, now: Time)
    requires i < |log| && log[i].id in scannedAt
    ensures var h := log[i];
            && Written(scannedAt, log[..i + 1], now)
               == (if h.fate.Unanswered? then Written(scannedAt, log[..i], now) else Written(scannedAt, log[..i], now)[h.id := Some(now)])
            && UnansweredIn(log[..i + 1]) == UnansweredIn(log[..i]) + if h.fate.Unanswered? then {h.id} else {}
  {
  }
}
