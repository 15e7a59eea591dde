/**
 The login limiter: `_login_buckets`, `begin_login_attempt` and `forgive_login_attempt`
 of backend/app/core/deps.py over the fixed-window counters of core/cache.py. Redis
 executes one INCR or DECR at a time; everything else interleaves.
 */
module LoginLimiter {
  import opened Common

  const WINDOW := 60
  const ACCOUNT_CEILING_FACTOR := 10

  /** A counter's key names the bucket and the window. */
  datatype Bucket = Bucket(name: string, window: nat)

  datatype Limited = Limited(bucket: Bucket, limit: int)

  function Account(username: string): string { if |username| <= 150 then username else username[..150] }

  /** `_login_buckets` in the window of `started` */
  function Buckets(ip: string, username: string, perMinute: int, started: nat): (r: seq<Limited>)
    ensures |r| == 3
  {
    var name, window := Account(username), started / WINDOW;
    [Limited(Bucket("login:ip:" + ip, window), perMinute),
     Limited(Bucket("login:user:" + name + ":ip:" + ip, window), perMinute),
     Limited(Bucket("login:user:" + name, window), perMinute * ACCOUNT_CEILING_FACTOR)]
  }

  /** No attempt is counted twice in one bucket, whatever the name and address. */
  lemma BucketsDiffer(ip: string, username: string, perMinute: int, started: nat, i: nat, j: nat)
    requires i < j < 3
    ensures var bs := Buckets(ip, username, perMinute, started); bs[i].bucket != bs[j].bucket
  {
    var name := Account(username);
    assert ("login:ip:" + ip)[6] == 'i' && ("login:user:" + name + ":ip:" + ip)[6] == 'u' && ("login:user:" + name)[6] == 'u';
    assert |"login:user:" + name + ":ip:" + ip| > |"login:user:" + name|;
  }

  predicate SameWindow(t: nat, u: nat) { t / WINDOW == u / WINDOW }

  lemma SamePrefix(p: string, a: string, b: string)
    ensures p + a == p + b <==> a == b
  {
    if p + a == p + b {
      assert a == (p + a)[|p|..] && b == (p + b)[|p|..];
    }
  }

  /** When two attempts are counted in one bucket. The per-address bucket is met by no
      other kind; an account's bucket is another account's per-address bucket exactly
      when the account is spelled that way. */
  lemma BucketsMeet(ip: string, username: string, t: nat, ip2: string, username2: string, t2: nat, perMinute: int)
    ensures var bs, cs := Buckets(ip, username, perMinute, t), Buckets(ip2, username2, perMinute, t2);
            var name, name2 := Account(username), Account(username2);
            && (bs[0].bucket == cs[0].bucket <==> SameWindow(t, t2) && ip == ip2)
            && bs[0].bucket != cs[1].bucket && bs[0].bucket != cs[2].bucket
            && (bs[1].bucket == cs[1].bucket <==> SameWindow(t, t2) && name + ":ip:" + ip == name2 + ":ip:" + ip2)
            && (bs[1].bucket == cs[2].bucket <==> SameWindow(t, t2) && name2 == name + ":ip:" + ip)
            && (bs[2].bucket == cs[2].bucket <==> SameWindow(t, t2) && name == name2)
  {
    var name, name2 := Account(username), Account(username2);
    var u := "login:user:";
    SamePrefix("login:ip:", ip, ip2);
    SamePrefix(u, name, name2);
    SamePrefix(u, name + ":ip:" + ip, name2 + ":ip:" + ip2);
    SamePrefix(u, name + ":ip:" + ip, name2);
    assert u + name + ":ip:" + ip == u + (name + ":ip:" + ip);
    assert u + name2 + ":ip:" + ip2 == u + (name2 + ":ip:" + ip2);
    assert ("login:ip:" + ip)[6] == 'i' && (u + name2 + ":ip:" + ip2)[6] == 'u' && (u + name2)[6] == 'u';
  }

  /** Addresses that contain no `p`, as numeric ones do not: then two per-address
      buckets of accounts are one only for the same account and address. */
  lemma AddressesTell(name: string, ip: string, name2: string, ip2: string)
    requires 'p' !in ip && 'p' !in ip2
    ensures name + ":ip:" + ip == name2 + ":ip:" + ip2 <==> name == name2 && ip == ip2
  {
    var s, s2 := name + ":ip:" + ip, name2 + ":ip:" + ip2;
    if s == s2 {
      assert s[|name| + 2] == 'p' && s2[|name2| + 2] == 'p';
      assert forall i | |name| + 2 < i < |s| :: s[i] == (":" + ip)[i - |name| - 3];
      assert forall i | |name2| + 2 < i < |s2| :: s2[i] == (":" + ip2)[i - |name2| - 3];
      assert |name| == |name2|;
      assert name == s[..|name|] && name2 == s2[..|name|];
      assert ip == s[|name| + 4..] && ip2 == s2[|name| + 4..];
    }
  }

  /** A name that is spelled like some account's per-address bucket. */
  predicate NamesABucket(username: string) {
    exists i :: 0 <= i < |Account(username)| && MarkerAt(Account(username), i)
  }

  predicate MarkerAt(s: string, i: nat) { i + 4 <= |s| && s[i..i + 4] == ":ip:" }

  /** So an attempt's account counter is nobody's per-address counter exactly when its
      username, as far as it is read, contains no `:ip:`. */
  lemma MeetingNeedsTheMarker(username2: string, ip2: string, t: nat, perMinute: int)
    ensures NamesABucket(username2) <==>
              exists ip, username :: Buckets(ip, username, perMinute, t)[1].bucket == Buckets(ip2, username2, perMinute, t)[2].bucket
  {
    var name2 := Account(username2);
    if NamesABucket(username2) {
      var i :| 0 <= i < |name2| && MarkerAt(name2, i);
      assert name2 == name2[..i] + ":ip:" + name2[i + 4..];
      assert Account(name2[..i]) == name2[..i];
      BucketsMeet(name2[i + 4..], name2[..i], t, ip2, username2, t, perMinute);
    }
    if ip, username :| Buckets(ip, username, perMinute, t)[1].bucket == Buckets(ip2, username2, perMinute, t)[2].bucket {
      BucketsMeet(ip, username, t, ip2, username2, t, perMinute);
      assert MarkerAt(name2, |Account(username)|);
    }
  }

  function Count(counters: map<Bucket, int>, b: Bucket): int { if b in counters then counters[b] else 0 }

  function Plus(counters: map<Bucket, int>, b: Bucket, n: int): map<Bucket, int> { counters[b := Count(counters, b) + n] }

  // ---------------------------------------------------------------------
  // One attempt on its own
  // ---------------------------------------------------------------------

  /** A limit that is not positive switches a bucket off. */
  predicate Counted(limit: int) { limit > 0 }

  /** How often the first `n` buckets count towards `b`. */
  function Hits(bs: seq<Limited>, b: Bucket): nat {
    if bs == [] then 0
    else Hits(bs[..|bs| - 1], b) + if Counted(bs[|bs| - 1].limit) && bs[|bs| - 1].bucket == b then 1 else 0
  }

  predicate Under(counters: map<Bucket, int>, x: Limited) { Counted(x.limit) ==> Count(counters, x.bucket) < x.limit }

  predicate Passes(counters: map<Bucket, int>, bs: seq<Limited>) { forall i | 0 <= i < |bs| :: Under(counters, bs[i]) }

  /** The counters after one more attempt was let through and not forgiven. */
  function CountedIn(counters: map<Bucket, int>, bs: seq<Limited>): map<Bucket, int> {
    if bs == [] then counters
    else
      var x := bs[|bs| - 1];
      var before := CountedIn(counters, bs[..|bs| - 1]);
      if Counted(x.limit) then Plus(before, x.bucket, 1) else before
  }

  lemma {:induction false} CountedInCounts(counters: map<Bucket, int>, bs: seq<Limited>, b: Bucket)
    ensures Count(CountedIn(counters, bs), b) == Count(counters, b) + Hits(bs, b)
  {
    if bs != [] {
      CountedInCounts(counters, bs[..|bs| - 1], b);
    }
  }

  ghost predicate SameCounts(a: map<Bucket, int>, b: map<Bucket, int>) { forall k :: Count(a, k) == Count(b, k) }

  /** A setting that is not positive switches the limiter off: everything passes and
      nothing is counted. */
  lemma NoLimitNoCount(counters: map<Bucket, int>, ip: string, username: string, perMinute: int, started: nat)
    requires perMinute <= 0
    ensures var bs := Buckets(ip, username, perMinute, started); Passes(counters, bs) && CountedIn(counters, bs) == counters
  {
    var bs := Buckets(ip, username, perMinute, started);
    assert bs[..2] == [bs[0], bs[1]] && bs[..2][..1] == [bs[0]];
    assert CountedIn(counters, [bs[0]]) == counters;
    assert CountedIn(counters, [bs[0], bs[1]]) == counters;
  }

  class Counters {
    var counters: map<Bucket, int>

    /** `rate_limit` */
    method RateLimit(x: Limited) returns (allowed: bool)
      modifies this
      ensures allowed == Under(old(counters), x)
      ensures counters == if Counted(x.limit) then Plus(old(counters), x.bucket, 1) else old(counters)
    {
      if x.limit <= 0 {
        return true;
      }
      counters := counters[x.bucket := (if x.bucket in counters then counters[x.bucket] else 0) + 1];
      return counters[x.bucket] <= x.limit;
    }

    /** `rate_limit_refund` */
    method Refund(x: Limited)
      modifies this
      ensures counters == if Counted(x.limit) then Plus(old(counters), x.bucket, -1) else old(counters)
    {
      if x.limit <= 0 {
        return;
      }
      counters := counters[x.bucket := (if x.bucket in counters then counters[x.bucket] else 0) - 1];
    }

    method RefundAll(taken: seq<Limited>)
      modifies this
      ensures forall b :: Count(counters, b) == Count(old(counters), b) - Hits(taken, b)
    {
      for i := 0 to |taken|
        invariant forall b :: Count(counters, b) == Count(old(counters), b) - Hits(taken[..i], b)
      {
        Refund(taken[i]);
        assert taken[..i + 1][..i] == taken[..i];
      }
      assert taken[..|taken|] == taken;
    }

    /** `begin_login_attempt`: let through exactly when every bucket is under its limit,
        and then counted once in each; refused, it leaves every counter as it was. */
    method Begin(ip: string, username: string, perMinute: int, started: nat) returns (admitted: bool)
      modifies this
      ensures var bs := Buckets(ip, username, perMinute, started);
              && (admitted <==> Passes(old(counters), bs))
              && SameCounts(counters, if admitted then CountedIn(old(counters), bs) else old(counters))
    {
      var bs := Buckets(ip, username, perMinute, started);
      var taken: seq<Limited> := [];
      for i := 0 to |bs|
        invariant taken == bs[..i]
        invariant forall j | 0 <= j < i :: Under(old(counters), bs[j])
        invariant forall b :: Count(counters, b) == Count(old(counters), b) + Hits(bs[..i], b)
      {
        UntouchedSoFar(bs, i, ip, username, perMinute, started);
        var allowed := RateLimit(bs[i]);
        taken := taken + [bs[i]];
        assert bs[..i + 1][..i] == bs[..i] && taken == bs[..i + 1];
        if !allowed {
          RefundAll(taken);
          return false;
        }
      }
      assert bs[..|bs|] == bs;
      forall b ensures Count(counters, b) == Count(CountedIn(old(counters), bs), b) {
        CountedInCounts(old(counters), bs, b);
      }
      return true;
    }

    /** `forgive_login_attempt` undoes a successful `Begin`. */
    method Forgive(ip: string, username: string, perMinute: int, started: nat)
      modifies this
      ensures SameCounts(CountedIn(counters, Buckets(ip, username, perMinute, started)), old(counters))
    {
      var bs := Buckets(ip, username, perMinute, started);
      RefundAll(bs);
      forall b ensures Count(CountedIn(counters, bs), b) == Count(old(counters), b) {
        CountedInCounts(counters, bs, b);
      }
    }
  }

  lemma UntouchedSoFar(bs: seq<Limited>, i: nat, ip: string, username: string, perMinute: int, started: nat)
    requires bs == Buckets(ip, username, perMinute, started) && i < 3
    ensures Hits(bs[..i], bs[i].bucket) == 0
  {
    forall j | 0 <= j < i ensures bs[j].bucket != bs[i].bucket {
      BucketsDiffer(ip, username, perMinute, started, j, i);
    }
    NoHits(bs[..i], bs[i].bucket);
  }

  lemma {:induction false} NoHits(bs: seq<Limited>, b: Bucket)
    requires forall x | x in bs :: x.bucket != b
    ensures Hits(bs, b) == 0
  {
    if bs != [] {
      assert bs[|bs| - 1] in bs;
      NoHits(bs[..|bs| - 1], b);
    }
  }

  // ---------------------------------------------------------------------
  // Wrong guesses from elsewhere
  // ---------------------------------------------------------------------

  function AfterFailures(bs: seq<Limited>, n: nat): map<Bucket, int> {
    if n == 0 then map[] else CountedIn(AfterFailures(bs, n - 1), bs)
  }

  predicate Among(bs: seq<Limited>, b: Bucket) { exists i :: 0 <= i < |bs| && bs[i].bucket == b }

  lemma HitsAmong(ip: string, username: string, perMinute: int, t: nat, b: Bucket)
    requires perMinute > 0
    ensures var bs := Buckets(ip, username, perMinute, t); Hits(bs, b) == if Among(bs, b) then 1 else 0
  {
    var bs := Buckets(ip, username, perMinute, t);
    BucketsDiffer(ip, username, perMinute, t, 0, 1);
    BucketsDiffer(ip, username, perMinute, t, 0, 2);
    BucketsDiffer(ip, username, perMinute, t, 1, 2);
    assert bs == [bs[0], bs[1], bs[2]];
    assert Hits([bs[0]], b) == if bs[0].bucket == b then 1 else 0;
    assert [bs[0], bs[1]][..1] == [bs[0]] && bs[..2] == [bs[0], bs[1]];
    assert Hits([bs[0], bs[1]], b) == (if bs[0].bucket == b then 1 else 0) + if bs[1].bucket == b then 1 else 0;
  }

  lemma {:induction false} FailuresCount(ip: string, username: string, perMinute: int, t: nat, n: nat, b: Bucket)
    requires perMinute > 0
    ensures var bs := Buckets(ip, username, perMinute, t);
            Count(AfterFailures(bs, n), b) == if Among(bs, b) then n else 0
  {
    var bs := Buckets(ip, username, perMinute, t);
    HitsAmong(ip, username, perMinute, t, b);
    if n > 0 {
      FailuresCount(ip, username, perMinute, t, n - 1, b);
      CountedInCounts(AfterFailures(bs, n - 1), bs, b);
    }
  }

  /** One source may fail `perMinute` times in a window, and no more. */
  lemma FailuresLetThrough(ip: string, username: string, perMinute: int, t: nat, n: nat)
    requires perMinute > 0
    ensures var bs := Buckets(ip, username, perMinute, t); Passes(AfterFailures(bs, n), bs) <==> n < perMinute
  {
    var bs := Buckets(ip, username, perMinute, t);
    forall i | 0 <= i < 3 ensures Count(AfterFailures(bs, n), bs[i].bucket) == n {
      FailuresCount(ip, username, perMinute, t, n, bs[i].bucket);
    }
    assert Under(AfterFailures(bs, n), bs[0]) <==> n < perMinute;
  }

  /** What the account-and-address bucket counts besides its own attempts. */
  predicate CountsAgainst(ip: string, username: string, ip2: string, username2: string) {
    Account(username2) == Account(username) + ":ip:" + ip
    || Account(username2) + ":ip:" + ip2 == Account(username) + ":ip:" + ip
  }

  /** Wrong guesses from one other address, as many as are let through, shut an owner
      out exactly when they are counted in the bucket of his account and address. */
  lemma GuessesFromElsewhere(ip: string, username: string, t: nat, ip2: string, username2: string, t2: nat, perMinute: int, n: nat)
    requires perMinute > 0 && ip != ip2 && n <= perMinute
    ensures var owner, other := Buckets(ip, username, perMinute, t), Buckets(ip2, username2, perMinute, t2);
            Passes(AfterFailures(other, n), owner) <==>
              n < perMinute || !SameWindow(t, t2) || !CountsAgainst(ip, username, ip2, username2)
  {
    var owner, other := Buckets(ip, username, perMinute, t), Buckets(ip2, username2, perMinute, t2);
    var counters := AfterFailures(other, n);
    forall i | 0 <= i < 3 ensures Count(counters, owner[i].bucket) == if Among(other, owner[i].bucket) then n else 0 {
      FailuresCount(ip2, username2, perMinute, t2, n, owner[i].bucket);
    }
    BucketsMeet(ip, username, t, ip2, username2, t2, perMinute);
    BucketsMeet(ip2, username2, t2, ip, username, t, perMinute);
    assert !Among(other, owner[0].bucket);
    assert Among(other, owner[1].bucket) <==> SameWindow(t, t2) && CountsAgainst(ip, username, ip2, username2) by {
      assert owner[1].bucket == other[1].bucket || owner[1].bucket == other[2].bucket ==> Among(other, owner[1].bucket);
    }
    assert Under(counters, owner[0]) && Under(counters, owner[2]);
    assert Under(counters, owner[1]) <==> n < perMinute || !Among(other, owner[1].bucket);
  }

  /** So with numeric addresses nobody is shut out from elsewhere by a username without
      the marker, whatever its length and the owner's. */
  lemma PlainNamesShutNobodyOut(ip: string, username: string, t: nat, ip2: string, username2: string, t2: nat, perMinute: int, n: nat)
    requires perMinute > 0 && ip != ip2 && n <= perMinute && 'p' !in ip && 'p' !in ip2 && !NamesABucket(username2)
    ensures Passes(AfterFailures(Buckets(ip2, username2, perMinute, t2), n), Buckets(ip, username, perMinute, t))
  {
    GuessesFromElsewhere(ip, username, t, ip2, username2, t2, perMinute, n);
    AddressesTell(Account(username2), ip2, Account(username), ip);
    if Account(username2) == Account(username) + ":ip:" + ip {
      assert MarkerAt(Account(username2), |Account(username)|);
    }
  }

  /** The concrete case: `perMinute` wrong guesses for the account `x:ip:a` from b are
      let through, and then nobody can log in as x from a. */
  lemma OwnerShutOut(perMinute: int)
    requires perMinute > 0
    ensures var owner, other := Buckets("a", "x", perMinute, 0), Buckets("b", "x:ip:a", perMinute, 0);
            && (forall n: nat | n < perMinute :: Passes(AfterFailures(other, n), other))
            && Passes(map[], owner) && !Passes(AfterFailures(other, perMinute), owner)
  {
    var other := Buckets("b", "x:ip:a", perMinute, 0);
    forall n: nat | n < perMinute ensures Passes(AfterFailures(other, n), other) {
      FailuresLetThrough("b", "x:ip:a", perMinute, 0, n);
    }
    assert "x" + ":ip:" + "a" == "x:ip:a";
    GuessesFromElsewhere("a", "x", 0, "b", "x:ip:a", 0, perMinute, perMinute);
  }

  // ---------------------------------------------------------------------
  // Attempts that interleave
  // ---------------------------------------------------------------------

  type AttemptId = nat
  type HitId = (AttemptId, nat)

  /** Taking hits, giving them back after a refusal, having the password checked,
      giving hits back after a right one; and how an attempt can end. An abandoned one
      was cut off at some await, where it was, and never runs again. */
  datatype Phase =
    | Taking(n: nat) | GivingBack(k: nat, n: nat) | Checking | Forgiving(k: nat)
    | Refused | Forgiven | Failed | Abandoned(at: Phase)

  datatype Attempt = Attempt(buckets: seq<Limited>, phase: Phase)

  /** One INCR that was executed: its place in the order of all of them, and whether
      the count it returned was within the limit. */
  datatype Hit = Hit(bucket: Bucket, limit: int, ticket: nat, passed: bool)

  datatype State = State(
    counters: map<Bucket, int>, taken: map<HitId, Hit>, refunded: set<HitId>, attempts: map<AttemptId, Attempt>, clock: nat)

  datatype Step =
    | Start(a: AttemptId, ip: string, username: string, now: nat)
    | Take(a: AttemptId)
    | GiveBack(a: AttemptId)
    | Right(a: AttemptId)
    | Wrong(a: AttemptId)
    | Forgive(a: AttemptId)
    | Abandon(a: AttemptId)

  predicate Ended(p: Phase) { p.Refused? || p.Forgiven? || p.Failed? || p.Abandoned? }

  predicate Enabled(s: State, step: Step) {
    match step
    case Start(a, _, _, _) => a !in s.attempts
    case _ =>
      step.a in s.attempts && |s.attempts[step.a].buckets| == 3 &&
      var p := s.attempts[step.a].phase;
      match step
      case Take(_) => p.Taking? && p.n < 3
      case GiveBack(_) => p.GivingBack? && p.k < p.n <= 3
      case Right(_) => p.Checking?
      case Wrong(_) => p.Checking?
      case Forgive(_) => p.Forgiving? && p.k < 3
      case Abandon(_) => !Ended(p)
  }

  function Moved(s: State, a: AttemptId, phase: Phase): State
    requires a in s.attempts
  {
    s.(attempts := s.attempts[a := s.attempts[a].(phase := phase)])
  }

  function AfterTake(n: nat, passed: bool): Phase {
    if !passed then GivingBack(0, n + 1) else if n == 2 then Checking else Taking(n + 1)
  }

  function TakeNext(s: State, a: AttemptId, n: nat, x: Limited): State
    requires a in s.attempts
  {
    if !Counted(x.limit) then Moved(s, a, AfterTake(n, true))
    else
      var count := Count(s.counters, x.bucket) + 1;
      Moved(s.(counters := Plus(s.counters, x.bucket, 1),
               taken := s.taken[(a, n) := Hit(x.bucket, x.limit, s.clock, count <= x.limit)],
               clock := s.clock + 1),
            a, AfterTake(n, count <= x.limit))
  }

  function RefundNext(s: State, a: AttemptId, k: nat, x: Limited, phase: Phase): State
    requires a in s.attempts
  {
    if !Counted(x.limit) then Moved(s, a, phase)
    else Moved(s.(counters := Plus(s.counters, x.bucket, -1), refunded := s.refunded + {(a, k)}), a, phase)
  }

  function Next(s: State, step: Step, perMinute: int): State
    requires Enabled(s, step)
  {
    match step
    case Start(a, ip, username, now) =>
      s.(attempts := s.attempts[a := Attempt(Buckets(ip, username, perMinute, now), Taking(0))])
    case Take(a) =>
      var n := s.attempts[a].phase.n;
      TakeNext(s, a, n, s.attempts[a].buckets[n])
    case GiveBack(a) =>
      var k, n := s.attempts[a].phase.k, s.attempts[a].phase.n;
      RefundNext(s, a, k, s.attempts[a].buckets[k], if k + 1 == n then Refused else GivingBack(k + 1, n))
    case Right(a) => Moved(s, a, Forgiving(0))
    case Wrong(a) => Moved(s, a, Failed)
    case Forgive(a) =>
      var k := s.attempts[a].phase.k;
      RefundNext(s, a, k, s.attempts[a].buckets[k], if k + 1 == 3 then Forgiven else Forgiving(k + 1))
    case Abandon(a) => Moved(s, a, Abandoned(s.attempts[a].phase))
  }

  // ---------------------------------------------------------------------
  // What holds whenever nothing is executing
  // ---------------------------------------------------------------------

  function Live(s: State): set<HitId> { s.taken.Keys - s.refunded }

  function On(taken: map<HitId, Hit>, hits: set<HitId>, b: Bucket): set<HitId> {
    set h | h in hits && h in taken && taken[h].bucket == b
  }

  function UpTo(taken: map<HitId, Hit>, hits: set<HitId>, b: Bucket, ticket: nat): set<HitId> {
    set h | h in hits && h in taken && taken[h].bucket == b && taken[h].ticket <= ticket
  }

  /** Every counter is the number of hits taken and not given back. */
  ghost predicate CountersAgree(counters: map<Bucket, int>, taken: map<HitId, Hit>, live: set<HitId>) {
    forall b :: Count(counters, b) == |On(taken, live, b)|
  }

  /** A hit that passed stays within its limit among the hits before it. */
  predicate PassedFit(taken: map<HitId, Hit>, live: set<HitId>) {
    forall h | h in live && h in taken && taken[h].passed :: |UpTo(taken, live, taken[h].bucket, taken[h].ticket)| <= taken[h].limit
  }

  /** How far an attempt came. */
  function Reached(p: Phase): Phase { if p.Abandoned? then p.at else p }

  /** Which of its three hits an attempt holds. */
  predicate Holds(p: Phase, i: nat) {
    match Reached(p)
    case Taking(n) => i < n
    case GivingBack(k, n) => k <= i < n
    case Checking => true
    case Forgiving(k) => k <= i
    case Failed => true
    case _ => false
  }

  predicate TakenBy(p: Phase, i: nat) {
    match Reached(p)
    case Taking(n) => i < n
    case _ => true
  }

  predicate WellPhased(p: Phase) {
    var q := Reached(p);
    (q.Taking? ==> q.n < 3) && (q.GivingBack? ==> q.k < q.n <= 3) && (q.Forgiving? ==> q.k < 3) && !q.Abandoned?
  }

  predicate AttemptSound(a: AttemptId, attempt: Attempt, taken: map<HitId, Hit>, refunded: set<HitId>) {
    && |attempt.buckets| == 3
    && WellPhased(attempt.phase)
    && forall i: nat | i < 3 ::
         && ((a, i) in taken ==> TakenBy(attempt.phase, i) && taken[(a, i)].bucket == attempt.buckets[i].bucket
                                 && taken[(a, i)].limit == attempt.buckets[i].limit)
         && ((a, i) in refunded ==> (a, i) in taken)
         && ((a, i) in taken && (a, i) !in refunded <==> Holds(attempt.phase, i) && Counted(attempt.buckets[i].limit))
         && (!Reached(attempt.phase).GivingBack? && (a, i) in taken && (a, i) !in refunded ==> taken[(a, i)].passed)
  }

  predicate HitsSound(taken: map<HitId, Hit>, attempts: set<AttemptId>, clock: nat) {
    forall h | h in taken :: h.0 in attempts && h.1 < 3 && taken[h].ticket < clock
  }

  predicate BucketsDistinct(bs: seq<Limited>) {
    forall i, j | 0 <= i < j < |bs| :: bs[i].bucket != bs[j].bucket
  }

  ghost predicate Sound(s: State) {
    && HitsSound(s.taken, s.attempts.Keys, s.clock)
    && s.refunded <= s.taken.Keys
    && (forall a | a in s.attempts ::
          AttemptSound(a, s.attempts[a], s.taken, s.refunded) && BucketsDistinct(s.attempts[a].buckets))
    && CountersAgree(s.counters, s.taken, Live(s))
    && PassedFit(s.taken, Live(s))
  }

  // ---------------------------------------------------------------------
  // Every step keeps it
  // ---------------------------------------------------------------------

  lemma OnTake(taken: map<HitId, Hit>, live: set<HitId>, h: HitId, hit: Hit, b: Bucket)
    requires live <= taken.Keys && h !in taken
    ensures |On(taken[h := hit], live + {h}, b)| == |On(taken, live, b)| + if b == hit.bucket then 1 else 0
  {
    if b == hit.bucket {
      assert On(taken[h := hit], live + {h}, b) == On(taken, live, b) + {h};
    } else {
      assert On(taken[h := hit], live + {h}, b) == On(taken, live, b);
    }
  }

  lemma TakeCounts(
    counters: map<Bucket, int>, taken: map<HitId, Hit>, live: set<HitId>, h: HitId, hit: Hit)
    requires CountersAgree(counters, taken, live) && live <= taken.Keys && h !in taken
    ensures CountersAgree(Plus(counters, hit.bucket, 1), taken[h := hit], live + {h})
  {
    forall b ensures Count(Plus(counters, hit.bucket, 1), b) == |On(taken[h := hit], live + {h}, b)| {
      OnTake(taken, live, h, hit, b);
    }
  }

  lemma TakeFits(
    counters: map<Bucket, int>, taken: map<HitId, Hit>, live: set<HitId>, h: HitId, hit: Hit)
    requires CountersAgree(counters, taken, live) && PassedFit(taken, live) && live <= taken.Keys && h !in taken
    requires forall x | x in taken :: taken[x].ticket < hit.ticket
    requires hit.passed <==> Count(counters, hit.bucket) + 1 <= hit.limit
    ensures PassedFit(taken[h := hit], live + {h})
  {
    var after := taken[h := hit];
    forall x | x in live + {h} && x in after && after[x].passed
      ensures |UpTo(after, live + {h}, after[x].bucket, after[x].ticket)| <= after[x].limit
    {
      if x == h {
        assert UpTo(after, live + {h}, hit.bucket, hit.ticket) == On(taken, live, hit.bucket) + {h};
      } else {
        assert UpTo(after, live + {h}, taken[x].bucket, taken[x].ticket) == UpTo(taken, live, taken[x].bucket, taken[x].ticket);
      }
    }
  }

  lemma RefundCounts(counters: map<Bucket, int>, taken: map<HitId, Hit>, live: set<HitId>, h: HitId)
    requires CountersAgree(counters, taken, live) && h in live && h in taken
    ensures CountersAgree(Plus(counters, taken[h].bucket, -1), taken, live - {h})
  {
    forall b ensures Count(Plus(counters, taken[h].bucket, -1), b) == |On(taken, live - {h}, b)| {
      assert On(taken, live - {h}, b) == On(taken, live, b) - if b == taken[h].bucket then {h} else {};
      assert b == taken[h].bucket ==> h in On(taken, live, b);
    }
  }

  lemma RefundFits(taken: map<HitId, Hit>, live: set<HitId>, h: HitId)
    requires PassedFit(taken, live)
    ensures PassedFit(taken, live - {h})
  {
    forall x | x in live - {h} && x in taken && taken[x].passed
      ensures |UpTo(taken, live - {h}, taken[x].bucket, taken[x].ticket)| <= taken[x].limit
    {
      Smaller(UpTo(taken, live - {h}, taken[x].bucket, taken[x].ticket), UpTo(taken, live, taken[x].bucket, taken[x].ticket));
    }
  }

  lemma Smaller(a: set<HitId>, b: set<HitId>)
    requires a <= b
    ensures |a| <= |b|
  {
    assert b == a + (b - a);
  }

  lemma TakeNextIsSound(s: State, a: AttemptId, after: State)
    requires Sound(s) && Enabled(s, Take(a))
    requires var n := s.attempts[a].phase.n; after == TakeNext(s, a, n, s.attempts[a].buckets[n])
    ensures Sound(after)
  {
    var n := s.attempts[a].phase.n;
    var x := s.attempts[a].buckets[n];
    if Counted(x.limit) {
      CountedTakeIsSound(s, a, n, x, Hit(x.bucket, x.limit, s.clock, Count(s.counters, x.bucket) + 1 <= x.limit), after);
    } else {
      assert Live(after) == Live(s);
      OthersSound(s, a, after);
    }
  }

  lemma CountedTakeIsSound(s: State, a: AttemptId, n: nat, x: Limited, hit: Hit, after: State)
    requires Sound(s) && Enabled(s, Take(a)) && s.attempts[a].phase == Taking(n) && x == s.attempts[a].buckets[n] && Counted(x.limit)
    requires hit == Hit(x.bucket, x.limit, s.clock, Count(s.counters, x.bucket) + 1 <= x.limit)
    requires after == TakeNext(s, a, n, x)
    ensures Sound(after)
  {
    var attempt := s.attempts[a].(phase := AfterTake(n, hit.passed));
    assert after == State(Plus(s.counters, x.bucket, 1), s.taken[(a, n) := hit], s.refunded, s.attempts[a := attempt], s.clock + 1);
    assert AttemptSound(a, s.attempts[a], s.taken, s.refunded);
    assert (a, n) !in s.taken;
    TakeCounts(s.counters, s.taken, Live(s), (a, n), hit);
    TakeFits(s.counters, s.taken, Live(s), (a, n), hit);
    assert Live(after) == Live(s) + {(a, n)};
    OwnTake(s, a, n, hit, attempt.phase);
    OthersSound(s, a, after);
  }

  lemma OwnTake(s: State, a: AttemptId, n: nat, hit: Hit, phase: Phase)
    requires a in s.attempts && AttemptSound(a, s.attempts[a], s.taken, s.refunded) && s.attempts[a].phase == Taking(n) && n < 3
    requires Counted(hit.limit) && hit.bucket == s.attempts[a].buckets[n].bucket && hit.limit == s.attempts[a].buckets[n].limit
    requires phase == AfterTake(n, hit.passed)
    ensures AttemptSound(a, s.attempts[a].(phase := phase), s.taken[(a, n) := hit], s.refunded)
  {
  }

  lemma OwnRefund(a: AttemptId, attempt: Attempt, taken: map<HitId, Hit>, refunded: set<HitId>, k: nat, phase: Phase)
    requires AttemptSound(a, attempt, taken, refunded) && k < 3
    requires (attempt.phase.GivingBack? && attempt.phase.k == k
              && phase == if k + 1 == attempt.phase.n then Refused else GivingBack(k + 1, attempt.phase.n))
             || (attempt.phase == Forgiving(k) && phase == if k + 1 == 3 then Forgiven else Forgiving(k + 1))
    ensures Counted(attempt.buckets[k].limit) ==>
              (a, k) in taken && (a, k) !in refunded && taken[(a, k)].bucket == attempt.buckets[k].bucket
    ensures AttemptSound(a, attempt.(phase := phase), taken,
                         if Counted(attempt.buckets[k].limit) then refunded + {(a, k)} else refunded)
  {
  }

  lemma RefundNextIsSound(s: State, a: AttemptId, k: nat, phase: Phase, after: State)
    requires Sound(s) && a in s.attempts && k < 3
    requires var p := s.attempts[a].phase;
             (p.GivingBack? && p.k == k && phase == if k + 1 == p.n then Refused else GivingBack(k + 1, p.n))
             || (p == Forgiving(k) && phase == if k + 1 == 3 then Forgiven else Forgiving(k + 1))
    requires after == RefundNext(s, a, k, s.attempts[a].buckets[k], phase)
    ensures Sound(after)
  {
    OwnRefund(a, s.attempts[a], s.taken, s.refunded, k, phase);
    if Counted(s.attempts[a].buckets[k].limit) {
      RefundCounts(s.counters, s.taken, Live(s), (a, k));
      RefundFits(s.taken, Live(s), (a, k));
      assert Live(after) == Live(s) - {(a, k)};
    }
    OthersSound(s, a, after);
  }

  lemma OthersSound(s: State, a: AttemptId, after: State)
    requires Sound(s) && a in s.attempts && a in after.attempts && after.attempts == s.attempts[a := after.attempts[a]]
    requires forall h: HitId | h.0 != a :: (h in s.taken <==> h in after.taken) && (h in s.taken ==> s.taken[h] == after.taken[h])
    requires forall h: HitId | h.0 != a :: h in s.refunded <==> h in after.refunded
    ensures forall b | b in after.attempts && b != a ::
              AttemptSound(b, after.attempts[b], after.taken, after.refunded) && BucketsDistinct(after.attempts[b].buckets)
  {
  }

  lemma StartIsSound(s: State, step: Step, perMinute: int)
    requires Sound(s) && step.Start? && Enabled(s, step)
    ensures Sound(Next(s, step, perMinute))
  {
    var after := Next(s, step, perMinute);
    var bs := after.attempts[step.a].buckets;
    forall i, j | 0 <= i < j < |bs| ensures bs[i].bucket != bs[j].bucket {
      BucketsDiffer(step.ip, step.username, perMinute, step.now, i, j);
    }
    assert Live(after) == Live(s);
    forall i: nat ensures (step.a, i) !in s.taken && (step.a, i) !in s.refunded {
    }
  }

  lemma NextIsSound(s: State, step: Step, perMinute: int)
    requires Sound(s) && Enabled(s, step)
    ensures Sound(Next(s, step, perMinute))
  {
    var after := Next(s, step, perMinute);
    if step.Start? {
      StartIsSound(s, step, perMinute);
    } else if step.Take? {
      TakeNextIsSound(s, step.a, after);
    } else if step.GiveBack? {
      RefundNextIsSound(s, step.a, s.attempts[step.a].phase.k, after.attempts[step.a].phase, after);
    } else if step.Forgive? {
      RefundNextIsSound(s, step.a, s.attempts[step.a].phase.k, after.attempts[step.a].phase, after);
    } else {
      PhaseStepIsSound(s, step.a, after.attempts[step.a].phase, after);
    }
  }

  /** Steps that touch no counter. */
  lemma PhaseStepIsSound(s: State, a: AttemptId, phase: Phase, after: State)
    requires Sound(s) && a in s.attempts && after == Moved(s, a, phase)
    requires (s.attempts[a].phase.Checking? && (phase == Forgiving(0) || phase == Failed))
             || (!Ended(s.attempts[a].phase) && phase == Abandoned(s.attempts[a].phase))
    ensures Sound(after)
  {
  }

  // ---------------------------------------------------------------------
  // Over whole runs
  // ---------------------------------------------------------------------

  const Fresh := State(map[], map[], {}, map[], 0)

  ghost function Run(steps: seq<Step>, perMinute: int): State {
    if steps == [] then Fresh
    else
      var before := Run(steps[..|steps| - 1], perMinute);
      var step := steps[|steps| - 1];
      if Enabled(before, step) then Next(before, step, perMinute) else before
  }

  lemma {:induction false} RunIsSound(steps: seq<Step>, perMinute: int)
    ensures Sound(Run(steps, perMinute))
  {
    if steps != [] {
      var before := Run(steps[..|steps| - 1], perMinute);
      RunIsSound(steps[..|steps| - 1], perMinute);
      if Enabled(before, steps[|steps| - 1]) {
        NextIsSound(before, steps[|steps| - 1], perMinute);
      }
    }
  }

  function RefundedOn(s: State, b: Bucket): set<HitId> { On(s.taken, s.refunded, b) }

  /** Per bucket and window, the counter is hits taken minus hits given back. */
  lemma CounterIsTakenMinusRefunded(steps: seq<Step>, perMinute: int, b: Bucket)
    ensures var s := Run(steps, perMinute);
            Count(s.counters, b) == |On(s.taken, s.taken.Keys, b)| - |RefundedOn(s, b)|
  {
    RunIsSound(steps, perMinute);
    var s := Run(steps, perMinute);
    assert On(s.taken, s.taken.Keys, b) == On(s.taken, Live(s), b) + RefundedOn(s, b);
    assert On(s.taken, Live(s), b) !! RefundedOn(s, b);
  }

  /** Let through, wherever it stopped since. */
  predicate Admitted(p: Phase) { Reached(p).Checking? || Reached(p).Forgiving? || Reached(p).Failed? }

  /** The attempts let through, and not forgiven there, that a bucket counts at a limit. */
  function LetThrough(s: State, b: Bucket, limit: int): set<AttemptId> {
    set a | a in s.attempts && Admitted(s.attempts[a].phase)
            && exists i: nat :: i < |s.attempts[a].buckets| && Holds(s.attempts[a].phase, i) && s.attempts[a].buckets[i] == Limited(b, limit)
  }

  /** At most `limit` attempts are let through and unforgiven at once, in any bucket
      and at any limit it is used with, whatever else is counted there and however
      many of them were cut off after they were let through. */
  lemma AtMostLimitLetThrough(steps: seq<Step>, perMinute: int, b: Bucket, limit: int)
    requires Counted(limit)
    ensures |LetThrough(Run(steps, perMinute), b, limit)| <= limit
  {
    var s := Run(steps, perMinute);
    var through := LetThrough(s, b, limit);
    RunIsSound(steps, perMinute);
    var hits := set a, i | a in through && 0 <= i < 3 && Holds(s.attempts[a].phase, i)
                           && s.attempts[a].buckets[i] == Limited(b, limit) :: (a, i);
    forall h | h in hits ensures PassedAt(s, h, b, limit) {
      assert AttemptSound(h.0, s.attempts[h.0], s.taken, s.refunded);
    }
    forall a | a in through ensures exists h :: h in hits && h.0 == a {
      var i: nat :| i < |s.attempts[a].buckets| && Holds(s.attempts[a].phase, i) && s.attempts[a].buckets[i] == Limited(b, limit);
      assert (a, i) in hits;
    }
    Projection(through, hits);
    PassedAreFew(s, hits, b, limit);
  }

  /** The step an attempt began with. */
  ghost function Beginning(steps: seq<Step>, perMinute: int, a: AttemptId): Option<Step> {
    if steps == [] then None
    else
      var init, step := steps[..|steps| - 1], steps[|steps| - 1];
      if step.Start? && step.a == a && a !in Run(init, perMinute).attempts then Some(step) else Beginning(init, perMinute, a)
  }

  lemma {:induction false} AttemptsBegin(steps: seq<Step>, perMinute: int, a: AttemptId)
    ensures var s, step := Run(steps, perMinute), Beginning(steps, perMinute, a);
            && (a in s.attempts <==> step.Some?)
            && (step.Some? ==> step.value.Start?
                               && s.attempts[a].buckets == Buckets(step.value.ip, step.value.username, perMinute, step.value.now))
  {
    if steps != [] {
      var init, step := steps[..|steps| - 1], steps[|steps| - 1];
      AttemptsBegin(init, perMinute, a);
      if Enabled(Run(init, perMinute), step) {
        StepKeepsBuckets(Run(init, perMinute), step, perMinute, Run(steps, perMinute));
      }
    }
  }

  lemma StepKeepsBuckets(s: State, step: Step, perMinute: int, after: State)
    requires Enabled(s, step) && after == Next(s, step, perMinute)
    ensures after.attempts.Keys == s.attempts.Keys + {step.a}
    ensures forall a | a in s.attempts :: after.attempts[a].buckets == s.attempts[a].buckets
    ensures step.Start? ==> after.attempts[step.a].buckets == Buckets(step.ip, step.username, perMinute, step.now)
  {
  }

  /** Let through, and not yet found right: being checked, failed, or cut off there. */
  predicate Stands(p: Phase) { Reached(p).Checking? || Reached(p).Failed? }

  /** The standing attempts of one minute, from the address if one is given, at the
      account of the username (its first 150 characters) if one is given. */
  ghost function Standing(steps: seq<Step>, perMinute: int, ip: Option<string>, username: Option<string>, minute: nat): set<AttemptId> {
    var s := Run(steps, perMinute);
    set a | a in s.attempts && Stands(s.attempts[a].phase) && BeganAs(Beginning(steps, perMinute, a), ip, username, minute)
  }

  predicate BeganAs(step: Option<Step>, ip: Option<string>, username: Option<string>, minute: nat) {
    && step.Some? && step.value.Start? && step.value.now / 60 == minute
    && (ip.Some? ==> step.value.ip == ip.value)
    && (username.Some? ==> SameAccount(step.value.username, username.value))
  }

  predicate SameAccount(a: string, b: string) {
    (if |a| <= 150 then a else a[..150]) == (if |b| <= 150 then b else b[..150])
  }

  /** What the limiter is for, whatever interleaves: in one minute at most `perMinute`
      guesses from an address, as many at an account from an address, and ten times as
      many at an account from anywhere are let through and stand. */
  lemma GuessesAreCapped(steps: seq<Step>, perMinute: int, ip: string, username: string, minute: nat)
    requires perMinute > 0
    ensures |Standing(steps, perMinute, Some(ip), None, minute)| <= perMinute
    ensures |Standing(steps, perMinute, Some(ip), Some(username), minute)| <= perMinute
    ensures |Standing(steps, perMinute, None, Some(username), minute)| <= perMinute * 10
  {
    var bs := Buckets(ip, username, perMinute, minute * 60);
    StandingAreLetThrough(steps, perMinute, Some(ip), None, minute, 0, bs[0]);
    StandingAreLetThrough(steps, perMinute, Some(ip), Some(username), minute, 1, bs[1]);
    StandingAreLetThrough(steps, perMinute, None, Some(username), minute, 2, bs[2]);
  }

  lemma StandingAreLetThrough(
    steps: seq<Step>, perMinute: int, ip: Option<string>, username: Option<string>, minute: nat, i: nat, x: Limited)
    requires i < 3 && Counted(x.limit)
    requires forall step: Step | BeganAs(Some(step), ip, username, minute) ::
               Buckets(step.ip, step.username, perMinute, step.now)[i] == x
    ensures |Standing(steps, perMinute, ip, username, minute)| <= x.limit
  {
    var s := Run(steps, perMinute);
    var standing, through := Standing(steps, perMinute, ip, username, minute), LetThrough(s, x.bucket, x.limit);
    forall a | a in standing ensures a in through {
      AttemptsBegin(steps, perMinute, a);
      assert s.attempts[a].buckets[i] == Limited(x.bucket, x.limit) && Holds(s.attempts[a].phase, i);
    }
    SmallerAttempts(standing, through);
    AtMostLimitLetThrough(steps, perMinute, x.bucket, x.limit);
  }

  lemma SmallerAttempts(a: set<AttemptId>, b: set<AttemptId>)
    requires a <= b
    ensures |a| <= |b|
  {
    assert b == a + (b - a);
  }

  predicate PassedAt(s: State, h: HitId, b: Bucket, limit: int) {
    h in Live(s) && h in s.taken && s.taken[h].bucket == b && s.taken[h].limit == limit && s.taken[h].passed
  }

  lemma {:induction false} Projection(through: set<AttemptId>, hits: set<HitId>)
    requires forall a | a in through :: exists h :: h in hits && h.0 == a
    ensures |through| <= |hits|
    decreases |through|
  {
    if through != {} {
      var a :| a in through;
      var h :| h in hits && h.0 == a;
      forall b | b in through - {a} ensures exists g :: g in hits - {h} && g.0 == b {
        var g :| g in hits && g.0 == b;
        assert g in hits - {h};
      }
      Projection(through - {a}, hits - {h});
    }
  }

  /** The last of some hits that passed saw all the others counted. */
  lemma PassedAreFew(s: State, hits: set<HitId>, b: Bucket, limit: int)
    requires Sound(s) && Counted(limit) && forall h | h in hits :: PassedAt(s, h, b, limit)
    ensures |hits| <= limit
  {
    if hits != {} {
      var last := Latest(s, hits, b, limit);
      var before := UpTo(s.taken, Live(s), b, s.taken[last].ticket);
      assert hits <= before;
      Smaller(hits, before);
    }
  }

  lemma {:induction false} Latest(s: State, hits: set<HitId>, b: Bucket, limit: int) returns (last: HitId)
    requires hits != {} && forall h | h in hits :: PassedAt(s, h, b, limit)
    ensures last in hits && last in s.taken
    ensures forall h | h in hits :: h in s.taken && s.taken[h].ticket <= s.taken[last].ticket
    decreases |hits|
  {
    last :| last in hits;
    assert hits == {last} + (hits - {last});
    if hits - {last} != {} {
      var other := Latest(s, hits - {last}, b, limit);
      if s.taken[last].ticket < s.taken[other].ticket {
        last := other;
      }
    }
  }

  /** A refused attempt, and a forgiven one, count in no bucket. */
  lemma RefusedNetsZero(steps: seq<Step>, perMinute: int, a: AttemptId, b: Bucket)
    requires a in Run(steps, perMinute).attempts
    requires var p := Run(steps, perMinute).attempts[a].phase; p.Refused? || p.Forgiven?
    ensures var s := Run(steps, perMinute); forall h | h in On(s.taken, Live(s), b) :: h.0 != a
  {
    RunIsSound(steps, perMinute);
  }

  /** The attempts that hold a hit in the bucket. */
  function HoldersOn(s: State, b: Bucket): set<AttemptId> {
    set a | a in s.attempts
            && exists i: nat :: i < |s.attempts[a].buckets| && Holds(s.attempts[a].phase, i)
                                && s.attempts[a].buckets[i].bucket == b && Counted(s.attempts[a].buckets[i].limit)
  }

  lemma LiveHitOf(s: State, h: HitId)
    requires Sound(s) && h in Live(s) && h in s.taken
    ensures h.0 in s.attempts && h.1 < 3 && |s.attempts[h.0].buckets| == 3
    ensures var Attempt(buckets, phase) := s.attempts[h.0];
            s.taken[h].bucket == buckets[h.1].bucket && Holds(phase, h.1) && Counted(buckets[h.1].limit)
  {
  }

  /** In every state of every run a counter is the number of attempts that hold a hit
      in its bucket, once each. */
  lemma CountersAreHolders(steps: seq<Step>, perMinute: int, b: Bucket)
    ensures var s := Run(steps, perMinute); Count(s.counters, b) == |HoldersOn(s, b)|
  {
    RunIsSound(steps, perMinute);
    var s := Run(steps, perMinute);
    var hits := On(s.taken, Live(s), b);
    var holders := HoldersOn(s, b);
    forall h | h in hits ensures h.0 in holders {
      LiveHitOf(s, h);
    }
    forall g, h | g in hits && h in hits && g.0 == h.0 ensures g == h {
      LiveHitOf(s, g);
      LiveHitOf(s, h);
      assert BucketsDistinct(s.attempts[h.0].buckets);
    }
    forall a | a in holders ensures exists h :: h in hits && h.0 == a {
      assert AttemptSound(a, s.attempts[a], s.taken, s.refunded);
      var i: nat :| i < 3 && Holds(s.attempts[a].phase, i) && s.attempts[a].buckets[i].bucket == b
                    && Counted(s.attempts[a].buckets[i].limit);
      assert (a, i) in hits;
    }
    Projection(holders, hits);
    Injection(hits, holders);
  }

  function FailedOn(s: State, b: Bucket): set<AttemptId> {
    set a | a in s.attempts && s.attempts[a].phase.Failed?
            && exists x :: x in s.attempts[a].buckets && x.bucket == b && Counted(x.limit)
  }

  /** The attempts cut off while they held a hit in the bucket. */
  function CutOffOn(s: State, b: Bucket): set<AttemptId> {
    set a | a in HoldersOn(s, b) && s.attempts[a].phase.Abandoned?
  }

  predicate Quiet(attempts: map<AttemptId, Attempt>) { forall a | a in attempts :: Ended(attempts[a].phase) }

  /** With nothing in flight, a counter is exactly the number of failed attempts its
      bucket counts, and of attempts cut off there. */
  lemma QuietCountersAreFailures(steps: seq<Step>, perMinute: int, b: Bucket)
    requires Quiet(Run(steps, perMinute).attempts)
    ensures var s := Run(steps, perMinute); Count(s.counters, b) == |FailedOn(s, b)| + |CutOffOn(s, b)|
  {
    CountersAreHolders(steps, perMinute, b);
    RunIsSound(steps, perMinute);
    var s := Run(steps, perMinute);
    QuietHolders(s, b);
    assert FailedOn(s, b) !! CutOffOn(s, b);
  }

  lemma QuietHolders(s: State, b: Bucket)
    requires Sound(s) && Quiet(s.attempts)
    ensures HoldersOn(s, b) == FailedOn(s, b) + CutOffOn(s, b)
  {
    forall a | a in FailedOn(s, b) ensures a in HoldersOn(s, b) {
      var x :| x in s.attempts[a].buckets && x.bucket == b && Counted(x.limit);
      var i: nat :| i < |s.attempts[a].buckets| && s.attempts[a].buckets[i] == x;
      assert Holds(s.attempts[a].phase, i);
    }
    forall a | a in HoldersOn(s, b) ensures a in FailedOn(s, b) + CutOffOn(s, b) {
      assert Ended(s.attempts[a].phase);
    }
  }

  lemma {:induction false} Injection(hits: set<HitId>, attempts: set<AttemptId>)
    requires forall h | h in hits :: h.0 in attempts
    requires forall g, h | g in hits && h in hits && g.0 == h.0 :: g == h
    ensures |hits| <= |attempts|
    decreases |hits|
  {
    if hits != {} {
      var h :| h in hits;
      Injection(hits - {h}, attempts - {h.0});
    }
  }
}
