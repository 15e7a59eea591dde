/**
 `Lease` of backend/app/core/cache.py on one key: an expiring entry that any number of
 replicas set if absent, extend and delete, each by its own token, over a link that can
 be down, or lose the reply to a command that was executed.
 */
module Lease {
  import opened Common

  type Token = nat
  type Time = nat

  /** The entry of the key; it is there until `expires`. */
  datatype Entry = Entry(token: Token, expires: Time)

  datatype Link = Up | Down | Torn

  /** What one `Lease` object believes. `remote` is set when the cache confirmed it. */
  datatype Belief = Belief(held: bool, remote: bool)

  datatype State = State(now: Time, entry: Option<Entry>, beliefs: map<Token, Belief>)

  function LiveEntry(s: State): Option<Entry> {
    if s.entry.Some? && s.now < s.entry.value.expires then s.entry else None
  }

  predicate Holds(s: State, t: Token) { LiveEntry(s).Some? && LiveEntry(s).value.token == t }

  function BeliefOf(s: State, t: Token): Belief { if t in s.beliefs then s.beliefs[t] else Belief(false, false) }

  /** `SET key token NX EX ttl` */
  function SetIfAbsent(s: State, t: Token, ttl: nat): State {
    if LiveEntry(s).None? then s.(entry := Some(Entry(t, s.now + ttl))) else s
  }

  /** `_RENEW_SCRIPT` */
  function Extend(s: State, t: Token, ttl: nat): State {
    if Holds(s, t) then s.(entry := Some(Entry(t, s.now + ttl))) else s
  }

  /** `_RELEASE_SCRIPT` */
  function DeleteOwn(s: State, t: Token): State { if Holds(s, t) then s.(entry := None) else s }

  /** `acquire`: with no answer from the cache the lease counts as held. */
  function Acquired(s: State, t: Token, ttl: nat, link: Link): State {
    var after := if link.Down? then s else SetIfAbsent(s, t, ttl);
    var got := LiveEntry(s).None?;
    after.(beliefs := s.beliefs[t := if link.Up? then Belief(got, got) else Belief(true, false)])
  }

  function Renewed(s: State, t: Token, ttl: nat, link: Link): State {
    if link.Down? || !BeliefOf(s, t).remote then s else Extend(s, t, ttl)
  }

  /** What `renew` answers; the renewing task stops at False. */
  function RenewAnswer(s: State, t: Token, link: Link): bool { !link.Up? || !BeliefOf(s, t).remote || Holds(s, t) }

  function Released(s: State, t: Token, link: Link): State {
    var after := if link.Down? || !BeliefOf(s, t).remote then s else DeleteOwn(s, t);
    after.(beliefs := s.beliefs[t := Belief(false, false)])
  }

  datatype Step = Tick(n: nat) | Acquire(t: Token, link: Link) | Renew(t: Token, link: Link) | Release(t: Token, link: Link)

  function Next(s: State, step: Step, ttl: nat): State {
    match step
    case Tick(n) => s.(now := s.now + n)
    case Acquire(t, link) => Acquired(s, t, ttl, link)
    case Renew(t, link) => Renewed(s, t, ttl, link)
    case Release(t, link) => Released(s, t, link)
  }

  function Run(s: State, steps: seq<Step>, ttl: nat): State
    decreases |steps|
  {
    if steps == [] then s else Run(Next(s, steps[0], ttl), steps[1..], ttl)
  }

  // ---------------------------------------------------------------------
  // The code
  // ---------------------------------------------------------------------

  class Cache {
    var now: Time
    var entry: Option<Entry>

    constructor (t: Time)
      ensures now == t && entry == None
    {
      now, entry := t, None;
    }

    method SetNx(t: Token, ttl: nat) returns (ok: bool)
      modifies this`entry
      ensures ok == LiveEntry(State(now, old(entry), map[])).None?
      ensures entry == SetIfAbsent(State(now, old(entry), map[]), t, ttl).entry
    {
      if entry.Some? && now < entry.value.expires {
        return false;
      }
      entry := Some(Entry(t, now + ttl));
      return true;
    }

    method ExtendOwn(t: Token, ttl: nat) returns (ok: bool)
      modifies this`entry
      ensures ok == Holds(State(now, old(entry), map[]), t)
      ensures entry == Extend(State(now, old(entry), map[]), t, ttl).entry
    {
      if entry.Some? && now < entry.value.expires && entry.value.token == t {
        entry := Some(entry.value.(expires := now + ttl));
        return true;
      }
      return false;
    }

    method DropOwn(t: Token)
      modifies this`entry
      ensures entry == DeleteOwn(State(now, old(entry), map[]), t).entry
    {
      if entry.Some? && now < entry.value.expires && entry.value.token == t {
        entry := None;
      }
    }
  }

  /** A `Lease` object; its token is its own. */
  class Holder {
    const token: Token
    const ttl: nat
    const cache: Cache
    var held: bool
    var remote: bool

    constructor (token: Token, ttl: nat, cache: Cache)
      ensures this.token == token && this.ttl == ttl && this.cache == cache && !held && !remote
    {
      this.token, this.ttl, this.cache, held, remote := token, ttl, cache, false, false;
    }

    ghost function View(): State
      reads this, cache
    {
      State(cache.now, cache.entry, map[token := Belief(held, remote)])
    }

    method Acquire(link: Link) returns (ok: bool)
      modifies this`held, this`remote, cache`entry
      ensures View() == Acquired(old(View()), token, ttl, link) && ok == held
    {
      var got := false;
      if link.Up? || link.Torn? {
        got := cache.SetNx(token, ttl);
      }
      if link.Up? {
        held, remote := got, got;
      } else {
        held, remote := true, false;
      }
      return held;
    }

    method Renew(link: Link) returns (ok: bool)
      modifies cache`entry
      ensures View() == Renewed(old(View()), token, ttl, link) && ok == RenewAnswer(old(View()), token, link)
    {
      if link.Down? || !remote {
        return true;
      }
      var extended := cache.ExtendOwn(token, ttl);
      return link.Torn? || extended;
    }

    method Release(link: Link)
      modifies this`held, this`remote, cache`entry
      ensures View() == Released(old(View()), token, link)
    {
      if remote && !link.Down? {
        cache.DropOwn(token);
      }
      held, remote := false, false;
    }
  }

  // ---------------------------------------------------------------------
  // Exclusion
  // ---------------------------------------------------------------------

  /** The steps leave `t` less than a TTL behind its last executed renewal, `elapsed`
      ago at the start, and contain neither its release nor another acquire of its. */
  predicate InTime(steps: seq<Step>, t: Token, ttl: nat, elapsed: nat)
    decreases |steps|
  {
    steps == [] ||
    match steps[0]
    case Tick(n) => elapsed + n < ttl && InTime(steps[1..], t, ttl, elapsed + n)
    case Renew(u, link) => InTime(steps[1..], t, ttl, if u == t && !link.Down? then 0 else elapsed)
    case Acquire(u, _) => u != t && InTime(steps[1..], t, ttl, elapsed)
    case Release(u, _) => u != t && InTime(steps[1..], t, ttl, elapsed)
  }

  /** `t` holds the key since `elapsed` ago, and knows it. */
  predicate Secure(s: State, t: Token, ttl: nat, elapsed: nat) {
    elapsed < ttl && s.entry.Some? && s.entry.value.token == t && s.now + ttl == s.entry.value.expires + elapsed
    && BeliefOf(s, t).remote
  }

  /** While a holder is renewed in time it keeps the key, whatever the others do and
      however unreliable their links are: it is told so at every renewal, and every
      other acquire the cache answers is refused. */
  lemma {:induction false} RenewedHolderExcludes(s: State, steps: seq<Step>, t: Token, ttl: nat, elapsed: nat)
    requires Secure(s, t, ttl, elapsed) && InTime(steps, t, ttl, elapsed)
    ensures var after := Run(s, steps, ttl);
            && Holds(after, t)
            && (forall link :: RenewAnswer(after, t, link))
            && (forall u | u != t :: !BeliefOf(Acquired(after, u, ttl, Up), u).held && Holds(Acquired(after, u, ttl, Up), t))
    decreases |steps|
  {
    if steps != [] {
      var next := Next(s, steps[0], ttl);
      var later := match steps[0]
                   case Tick(n) => elapsed + n
                   case Renew(u, link) => if u == t && !link.Down? then 0 else elapsed
                   case _ => elapsed;
      assert Secure(next, t, ttl, later);
      RenewedHolderExcludes(next, steps[1..], t, ttl, later);
    }
  }

  /** So two holders that are both renewed in time are the same. */
  lemma OneSecureHolder(s: State, a: Token, b: Token, ttl: nat, x: nat, y: nat)
    requires Secure(s, a, ttl, x) && Secure(s, b, ttl, y)
    ensures a == b && x == y
  {
  }

  /** An acquire the cache confirmed makes the holder secure. */
  lemma ConfirmedIsSecure(s: State, t: Token, ttl: nat)
    requires ttl > 0
    ensures BeliefOf(Acquired(s, t, ttl, Up), t).held <==> LiveEntry(s).None?
    ensures LiveEntry(s).None? ==> Secure(Acquired(s, t, ttl, Up), t, ttl, 0)
  {
  }

  /** The hypothesis is exact: once a whole TTL passes between two renewals the key is
      free, the next acquire by anyone gets it, and the late holder is told. */
  lemma LateHolderLoses(s: State, t: Token, u: Token, ttl: nat, elapsed: nat, n: nat)
    requires ttl > 0 && Secure(s, t, ttl, elapsed) && u != t
    ensures LiveEntry(Next(s, Tick(n), ttl)).None? <==> elapsed + n >= ttl
    ensures elapsed + n >= ttl ==>
              var taken := Next(Next(s, Tick(n), ttl), Acquire(u, Up), ttl);
              Secure(taken, u, ttl, 0) && !RenewAnswer(taken, t, Up) && BeliefOf(taken, t).held == BeliefOf(s, t).held
  {
  }

  /** Renewing or releasing with a token that is not the stored one changes nothing
      in the cache, so a late holder cannot extend or delete its successor's entry. */
  lemma ForeignTokenChangesNothing(s: State, t: Token, ttl: nat, link: Link)
    requires !Holds(s, t)
    ensures Renewed(s, t, ttl, link).entry == s.entry
    ensures Released(s, t, link).entry == s.entry
  {
  }

  /** With no answer from the cache an acquire succeeds unconfirmed, though a command
      whose reply was lost may have set the entry; a new lease is not held. */
  lemma UnansweredIsHeld(s: State, t: Token, ttl: nat, link: Link)
    requires ttl > 0 && !link.Up?
    ensures BeliefOf(Acquired(s, t, ttl, link), t) == Belief(true, false)
    ensures link.Down? ==> Acquired(s, t, ttl, link).entry == s.entry
    ensures link.Torn? ==> (Holds(Acquired(s, t, ttl, link), t) <==> Holds(s, t) || LiveEntry(s).None?)
    ensures BeliefOf(State(0, None, map[]), t) == Belief(false, false)
  {
  }

  /** A release the cache hears of frees the key its holder was confirmed to have; one
      it does not hear of, or of a lease it never confirmed, leaves the entry to lapse.
      Either way the lease is no longer held. */
  lemma ReleaseFrees(s: State, t: Token, link: Link)
    ensures var after := Released(s, t, link);
            && BeliefOf(after, t) == Belief(false, false)
            && (!link.Down? && BeliefOf(s, t).remote && Holds(s, t) ==> LiveEntry(after).None?)
            && (link.Down? || !BeliefOf(s, t).remote ==> after.entry == s.entry)
            && (forall u | u != t :: BeliefOf(after, u) == BeliefOf(s, u))
  {
  }

  // ---------------------------------------------------------------------
  // A holder that died
  // ---------------------------------------------------------------------

  /** No entry outlives one TTL from now. */
  predicate Bounded(s: State, ttl: nat) { s.entry.Some? ==> s.entry.value.expires <= s.now + ttl }

  function Elapsed(steps: seq<Step>): nat {
    if steps == [] then 0 else Elapsed(steps[1..]) + if steps[0].Tick? then steps[0].n else 0
  }

  /** The holder takes no step that could set its entry again. */
  predicate Dead(steps: seq<Step>, t: Token) {
    forall i | 0 <= i < |steps| :: !((steps[i].Acquire? || steps[i].Renew?) && steps[i].t == t)
  }

  lemma {:induction false} RunIsBounded(s: State, steps: seq<Step>, ttl: nat)
    requires Bounded(s, ttl)
    ensures Bounded(Run(s, steps, ttl), ttl)
    decreases |steps|
  {
    if steps != [] {
      RunIsBounded(Next(s, steps[0], ttl), steps[1..], ttl);
    }
  }

  /** `t`'s entry, if it is still there, expires by `deadline`. */
  predicate ExpiresBy(s: State, t: Token, deadline: Time) {
    s.entry.Some? && s.entry.value.token == t ==> s.entry.value.expires <= deadline
  }

  lemma {:induction false} DeadHolderKeepsDeadline(s: State, steps: seq<Step>, t: Token, ttl: nat, deadline: Time)
    requires ExpiresBy(s, t, deadline) && Dead(steps, t)
    ensures ExpiresBy(Run(s, steps, ttl), t, deadline)
    ensures Run(s, steps, ttl).now == s.now + Elapsed(steps)
    decreases |steps|
  {
    if steps != [] {
      assert forall i | 0 <= i < |steps[1..]| :: steps[1..][i] == steps[i + 1];
      DeadHolderKeepsDeadline(Next(s, steps[0], ttl), steps[1..], t, ttl, deadline);
    }
  }

  /** A dead holder's key is free, or someone else's, within one TTL, at any point of
      any run; then the first acquire the cache answers gets it. */
  lemma DeadHolderLapses(before: seq<Step>, after: seq<Step>, t: Token, u: Token, ttl: nat)
    requires Dead(after, t) && Elapsed(after) >= ttl
    ensures var s := Run(Run(State(0, None, map[]), before, ttl), after, ttl);
            !Holds(s, t) && (LiveEntry(s).None? ==> BeliefOf(Acquired(s, u, ttl, Up), u).held)
  {
    var s := Run(State(0, None, map[]), before, ttl);
    RunIsBounded(State(0, None, map[]), before, ttl);
    DeadHolderKeepsDeadline(s, after, t, ttl, s.now + ttl);
  }
}
