/**
 How fresh an upstream tag's answer is: `_manifest_by_tag` and `_revalidate` of
 backend/app/docker/registry.py for one tag of one repository, against an upstream
 that may give the tag any digest at any moment. The store, which may lose the bytes
 of a digest, and the passes that drop tag rows are part of the environment.
 */
module TagCache {
  import opened Common

  type Digest = nat
  type Time = nat
  type FlightId = nat

  /** `since` is when the revalidation that last set `checkedAt` began; it is no
      column of the source. */
  datatype Row = Row(digest: Digest, checkedAt: Time, since: Time)

  /** What a revalidation is waiting for: the HEAD, a GET by the digest the HEAD
      named, a GET by tag, or only its own commit. A confirmed digest is committed by
      writing `checked_at` alone. */
  datatype Phase = Probing | Following(digest: Digest) | Fetching | Settling(digest: Digest, confirmed: bool)

  datatype Flight = Flight(start: Time, cached: Option<Digest>, phase: Phase)

  datatype State = State(now: Time, row: Option<Row>, flights: map<FlightId, Flight>, gave: set<(Digest, Time)>)

  datatype Kind = Hit | Revalidated | Fetched | Stale

  datatype Answer = Answer(kind: Kind, digest: Digest)

  datatype Step =
    | Tick(n: nat)
    | Lookup(bytes: bool)
    | Begin(id: FlightId, bytes: bool, force: bool)
    | Probed(id: FlightId, digest: Option<Digest>, reusable: bool)
    | GotByDigest(id: FlightId, found: bool)
    | GotByTag(id: FlightId, body: Digest)
    | Settle(id: FlightId)
    | Missing(id: FlightId)
    | Fails(id: FlightId, bytes: bool)
    | Abort(id: FlightId)
    | DropRow

  /** `_fresh` */
  predicate Fresh(s: State, ttl: nat) { s.row.Some? && s.now < s.row.value.checkedAt + ttl }

  predicate In(s: State, id: FlightId) { id in s.flights }

  predicate OnTheWire(p: Phase) { !p.Settling? }

  predicate Enabled(s: State, step: Step, ttl: nat) {
    match step
    case Lookup(bytes) => Fresh(s, ttl) && bytes
    case Begin(id, bytes, force) => !In(s, id) && (force || !Fresh(s, ttl) || !bytes)
    case Probed(id, _, _) => In(s, id) && s.flights[id].phase.Probing?
    case GotByDigest(id, _) => In(s, id) && s.flights[id].phase.Following?
    case GotByTag(id, _) => In(s, id) && s.flights[id].phase.Fetching?
    case Settle(id) => In(s, id) && s.flights[id].phase.Settling?
    case Missing(id) => In(s, id) && (s.flights[id].phase.Probing? || s.flights[id].phase.Fetching?)
    case Fails(id, _) => In(s, id) && OnTheWire(s.flights[id].phase)
    case Abort(id) => In(s, id)
    case _ => true
  }

  function Moved(s: State, id: FlightId, phase: Phase): State
    requires In(s, id)
  {
    s.(flights := s.flights[id := s.flights[id].(phase := phase)])
  }

  function Ended(s: State, id: FlightId): State { s.(flights := s.flights - {id}) }

  /** Where a HEAD's answer leads: the cached digest again, a move that needs no
      download, a move that does, or no usable digest at all. */
  function AfterProbe(cached: Option<Digest>, digest: Option<Digest>, reusable: bool): Phase {
    match digest
    case None => Fetching
    case Some(d) =>
      if cached == Some(d) then Settling(d, true)
      else if reusable then Settling(d, false)
      else Following(d)
  }

  function Next(s: State, step: Step, ttl: nat): State
    requires Enabled(s, step, ttl)
  {
    match step
    case Tick(n) => s.(now := s.now + n)
    case Lookup(_) => s
    case Begin(id, bytes, _) =>
      var cached := if s.row.Some? then Some(s.row.value.digest) else None;
      s.(flights := s.flights[id := Flight(s.now, cached, if cached.Some? && bytes then Probing else Fetching)])
    case Probed(id, digest, reusable) =>
      Moved(s.(gave := s.gave + if digest.Some? then {(digest.value, s.now)} else {}), id,
            AfterProbe(s.flights[id].cached, digest, reusable))
    case GotByDigest(id, found) =>
      Moved(s, id, if found then Settling(s.flights[id].phase.digest, false) else Fetching)
    case GotByTag(id, d) => Moved(s.(gave := s.gave + {(d, s.now)}), id, Settling(d, false))
    case Settle(id) =>
      var f := s.flights[id];
      var row := if !f.phase.confirmed then Some(Row(f.phase.digest, s.now, f.start))
                 else if s.row.Some? then Some(s.row.value.(checkedAt := s.now, since := f.start))
                 else None;
      Ended(s.(row := row), id)
    case Missing(id) => Ended(s.(row := None), id)
    case Fails(id, _) => Ended(s, id)
    case Abort(id) => Ended(s, id)
    case DropRow => s.(row := None)
  }

  /** What the client is told. Confirming a row that is gone by now is an error. */
  function AnswerOf(s: State, step: Step, ttl: nat): Option<Answer>
    requires Enabled(s, step, ttl)
  {
    match step
    case Lookup(_) => Some(Answer(Hit, s.row.value.digest))
    case Settle(id) =>
      var p := s.flights[id].phase;
      if p.confirmed then (if s.row.Some? then Some(Answer(Revalidated, p.digest)) else None)
      else Some(Answer(Fetched, p.digest))
    case Fails(id, bytes) =>
      var cached := s.flights[id].cached;
      if cached.Some? && bytes then Some(Answer(Stale, cached.value)) else None
    case _ => None
  }

  // ---------------------------------------------------------------------
  // What every step keeps, however many revalidations overlap
  // ---------------------------------------------------------------------

  /** The upstream gave the tag this digest between two moments. */
  predicate GaveWithin(gave: set<(Digest, Time)>, d: Digest, from: Time, to: Time) {
    exists g :: g in gave && g.0 == d && from <= g.1 <= to
  }

  /** A confirming commit finds the row, if it is still there, naming the digest that
      was probed. */
  predicate Agrees(s: State, step: Step) {
    step.Settle? && In(s, step.id) && s.flights[step.id].phase.Settling? && s.flights[step.id].phase.confirmed && s.row.Some? ==>
      s.row.value.digest == s.flights[step.id].phase.digest
  }

  predicate FlightSound(now: Time, gave: set<(Digest, Time)>, f: Flight) {
    && f.start <= now
    && (f.cached.Some? ==> GaveWithin(gave, f.cached.value, 0, now))
    && (f.phase.Probing? ==> f.cached.Some?)
    && (f.phase.Following? || f.phase.Settling? ==> GaveWithin(gave, f.phase.digest, f.start, now))
    && (f.phase.Settling? && f.phase.confirmed ==> f.cached == Some(f.phase.digest))
  }

  predicate RowSound(now: Time, gave: set<(Digest, Time)>, row: Option<Row>) {
    row.Some? ==> row.value.checkedAt <= now && GaveWithin(gave, row.value.digest, row.value.since, row.value.checkedAt)
  }

  predicate Sound(s: State) {
    RowSound(s.now, s.gave, s.row) && forall id | id in s.flights :: FlightSound(s.now, s.gave, s.flights[id])
  }

  lemma NextIsSound(s: State, step: Step, ttl: nat)
    requires Sound(s) && Enabled(s, step, ttl) && Agrees(s, step)
    ensures Sound(Next(s, step, ttl))
  {
  }

  /** A confirming commit over a row that names another digest leaves the row fresh
      exactly when the upstream gave that digest too since the revalidation began. */
  lemma ConfirmingAnother(s: State, id: FlightId, ttl: nat)
    requires Sound(s) && Enabled(s, Settle(id), ttl) && s.row.Some?
    requires s.flights[id].phase.confirmed && s.row.value.digest != s.flights[id].phase.digest
    ensures Sound(Next(s, Settle(id), ttl)) <==> GaveWithin(s.gave, s.row.value.digest, s.flights[id].start, s.now)
    ensures AnswerOf(s, Settle(id), ttl) == Some(Answer(Revalidated, s.flights[id].phase.digest))
    ensures Next(s, Settle(id), ttl).row == Some(Row(s.row.value.digest, s.now, s.flights[id].start))
  {
  }

  /** Where the upstream's answers lead: the digest already held is confirmed, another
      one is followed, without a download only if it is reusable, and one that is gone
      when it is fetched is not committed: the tag itself is fetched. No answer before
      the commit writes the row. */
  lemma AnswersLeadTo(s: State, id: FlightId, digest: Option<Digest>, reusable: bool, found: bool, body: Digest, ttl: nat)
    ensures Enabled(s, Probed(id, digest, reusable), ttl) ==>
              var after := Next(s, Probed(id, digest, reusable), ttl);
              && after.row == s.row
              && after.flights[id].phase == if digest.None? then Fetching
                                            else if s.flights[id].cached == digest then Settling(digest.value, true)
                                            else if reusable then Settling(digest.value, false)
                                            else Following(digest.value)
    ensures Enabled(s, GotByDigest(id, found), ttl) ==>
              var after := Next(s, GotByDigest(id, found), ttl);
              && after.row == s.row
              && after.flights[id].phase == if found then Settling(s.flights[id].phase.digest, false) else Fetching
    ensures Enabled(s, GotByTag(id, body), ttl) ==>
              var after := Next(s, GotByTag(id, body), ttl);
              after.row == s.row && after.flights[id].phase == Settling(body, false)
  {
  }

  // ---------------------------------------------------------------------
  // Runs
  // ---------------------------------------------------------------------

  const Start := State(0, None, map[], {})

  ghost function Run(steps: seq<Step>, ttl: nat): State {
    if steps == [] then Start
    else
      var s := Run(steps[..|steps| - 1], ttl);
      if Enabled(s, steps[|steps| - 1], ttl) then Next(s, steps[|steps| - 1], ttl) else s
  }

  /** No confirming commit of the run met another digest. */
  ghost predicate AllAgree(steps: seq<Step>, ttl: nat) {
    forall i | 0 <= i < |steps| :: Agrees(Run(steps[..i], ttl), steps[i])
  }

  lemma AgreeUpTo(steps: seq<Step>, ttl: nat)
    requires steps != [] && AllAgree(steps, ttl)
    ensures AllAgree(steps[..|steps| - 1], ttl) && Agrees(Run(steps[..|steps| - 1], ttl), steps[|steps| - 1])
  {
    var init := steps[..|steps| - 1];
    forall i | 0 <= i < |init| ensures Agrees(Run(init[..i], ttl), init[i]) {
      assert init[..i] == steps[..i];
    }
  }

  lemma {:induction false} RunIsSound(steps: seq<Step>, ttl: nat)
    requires AllAgree(steps, ttl)
    ensures Sound(Run(steps, ttl))
  {
    if steps != [] {
      var s := Run(steps[..|steps| - 1], ttl);
      AgreeUpTo(steps, ttl);
      RunIsSound(steps[..|steps| - 1], ttl);
      if Enabled(s, steps[|steps| - 1], ttl) {
        NextIsSound(s, steps[|steps| - 1], ttl);
      }
    }
  }

  /** Every answer of every run, whatever overlaps, as long as no confirming commit met
      another digest. A hit comes less than the TTL after `checked_at` and names a
      digest the upstream gave during the revalidation that set it; a revalidated or
      fetched answer names one given during that very revalidation, which leaves the
      row naming it; a stale one comes only when the upstream failed, and even that the
      upstream gave at some time. */
  lemma AnswersAreFresh(steps: seq<Step>, step: Step, ttl: nat)
    requires AllAgree(steps, ttl) && Agrees(Run(steps, ttl), step)
    requires Enabled(Run(steps, ttl), step, ttl) && AnswerOf(Run(steps, ttl), step, ttl).Some?
    ensures var s := Run(steps, ttl);
            var after := Next(s, step, ttl);
            var Answer(kind, d) := AnswerOf(s, step, ttl).value;
            && (kind.Stale? <==> step.Fails?)
            && (kind.Stale? ==> step.bytes && after.row == s.row && GaveWithin(s.gave, d, 0, s.now))
            && (!kind.Stale? ==> after.row.Some? && after.row.value.digest == d
                                 && GaveWithin(s.gave, d, after.row.value.since, after.row.value.checkedAt))
            && (kind.Hit? ==> after == s && s.now - s.row.value.checkedAt < ttl)
            && (kind.Revalidated? || kind.Fetched? ==>
                  after.row.value.checkedAt == s.now && after.row.value.since == s.flights[step.id].start)
  {
    RunIsSound(steps, ttl);
    NextIsSound(Run(steps, ttl), step, ttl);
  }

  /** So a hit is never older than the TTL and one revalidation together. */
  lemma HitsAreRecent(steps: seq<Step>, ttl: nat)
    requires AllAgree(steps, ttl) && Enabled(Run(steps, ttl), Lookup(true), ttl)
    ensures var s := Run(steps, ttl);
            exists g :: g in s.gave && g.0 == s.row.value.digest
                        && s.now - g.1 < ttl + (s.row.value.checkedAt - s.row.value.since)
  {
    RunIsSound(steps, ttl);
    var s := Run(steps, ttl);
    var g :| g in s.gave && g.0 == s.row.value.digest && s.row.value.since <= g.1 <= s.row.value.checkedAt;
  }

  // ---------------------------------------------------------------------
  // What the guard adds
  // ---------------------------------------------------------------------

  /** The herd guard: a revalidation of the tag begins only when none is under way. */
  predicate Guarded(s: State, step: Step) { step.Begin? ==> s.flights == map[] }

  ghost predicate AllGuarded(steps: seq<Step>, ttl: nat) {
    forall i | 0 <= i < |steps| :: Guarded(Run(steps[..i], ttl), steps[i])
  }

  /** One revalidation at most, and nobody else writes the row it started from. */
  predicate Alone(s: State) {
    && (forall a, b | a in s.flights && b in s.flights :: a == b)
    && (forall id | id in s.flights && s.row.Some? :: s.flights[id].cached == Some(s.row.value.digest))
    && (forall id | id in s.flights && s.flights[id].phase.Settling? && s.flights[id].phase.confirmed ::
          s.flights[id].cached == Some(s.flights[id].phase.digest))
  }

  lemma NextIsAlone(s: State, step: Step, ttl: nat)
    requires Alone(s) && Guarded(s, step) && Enabled(s, step, ttl)
    ensures Alone(Next(s, step, ttl))
  {
  }

  lemma {:induction false} RunIsAlone(steps: seq<Step>, ttl: nat)
    requires AllGuarded(steps, ttl)
    ensures Alone(Run(steps, ttl))
  {
    if steps != [] {
      var init := steps[..|steps| - 1];
      forall i | 0 <= i < |init| ensures Guarded(Run(init[..i], ttl), init[i]) {
        assert init[..i] == steps[..i];
      }
      RunIsAlone(init, ttl);
      if Enabled(Run(init, ttl), steps[|steps| - 1], ttl) {
        NextIsAlone(Run(init, ttl), steps[|steps| - 1], ttl);
      }
    }
  }

  /** Under the guard every confirming commit agrees, so every answer of every run is
      fresh. */
  lemma GuardedRunsAgree(steps: seq<Step>, ttl: nat)
    requires AllGuarded(steps, ttl)
    ensures AllAgree(steps, ttl) && forall step :: Agrees(Run(steps, ttl), step)
  {
    forall i | 0 <= i < |steps| ensures Agrees(Run(steps[..i], ttl), steps[i]) {
      forall j | 0 <= j < i ensures Guarded(Run(steps[..i][..j], ttl), steps[..i][j]) {
        assert steps[..i][..j] == steps[..j];
      }
      RunIsAlone(steps[..i], ttl);
    }
    RunIsAlone(steps, ttl);
  }

  // ---------------------------------------------------------------------
  // The guard is needed
  // ---------------------------------------------------------------------

  /** A first revalidation fills the row with 1. */
  const Fill := [Begin(0, true, true), GotByTag(0, 1), Settle(0)]

  /** A second is told 2, and has not committed yet when a third begins ... */
  const Late := [Begin(1, false, true), GotByTag(1, 2), Tick(1)]

  /** ... which is told 1, and commits after the second. */
  const Crossing := [Begin(2, true, true), Probed(2, Some(1), false), Settle(1), Settle(2)]

  /** Steps taken one after the other, if all are possible. */
  ghost function Play(s: State, steps: seq<Step>, ttl: nat): Option<State>
    decreases |steps|
  {
    if steps == [] then Some(s)
    else if Enabled(s, steps[0], ttl) then Play(Next(s, steps[0], ttl), steps[1..], ttl)
    else None
  }

  lemma {:induction false} RunPlays(before: seq<Step>, steps: seq<Step>, ttl: nat)
    requires Play(Run(before, ttl), steps, ttl).Some?
    ensures Some(Run(before + steps, ttl)) == Play(Run(before, ttl), steps, ttl)
    decreases |steps|
  {
    if steps == [] {
      assert before + steps == before;
    } else {
      var one := before + [steps[0]];
      assert one[..|before|] == before && one + steps[1..] == before + steps;
      RunPlays(one, steps[1..], ttl);
    }
  }

  const Filled := State(0, Some(Row(1, 0, 0)), map[], {(1, 0)})

  const Pending := State(1, Some(Row(1, 0, 0)), map[1 := Flight(0, Some(1), Settling(2, false))], {(1, 0), (2, 0)})

  const Crossed := State(1, Some(Row(2, 1, 1)), map[], {(1, 0), (2, 0), (1, 1)})

  lemma FillRuns(ttl: nat)
    ensures Play(Start, Fill, ttl) == Some(Filled)
  {
    var s1 := Next(Start, Fill[0], ttl);
    var s2 := Next(s1, Fill[1], ttl);
    assert Next(s2, Fill[2], ttl) == Filled;
    assert Play(s2, Fill[2..], ttl) == Some(Filled);
    assert Fill[1..][1..] == Fill[2..];
  }

  lemma LateRuns(ttl: nat)
    ensures Play(Filled, Late, ttl) == Some(Pending)
  {
    var s1 := Next(Filled, Late[0], ttl);
    var s2 := Next(s1, Late[1], ttl);
    assert Next(s2, Late[2], ttl) == Pending;
    assert Play(s2, Late[2..], ttl) == Some(Pending);
    assert Late[1..][1..] == Late[2..];
  }

  lemma CrossingRuns(ttl: nat)
    ensures Play(Pending, Crossing, ttl) == Some(Crossed)
  {
    var s1 := Next(Pending, Crossing[0], ttl);
    var s2 := Next(s1, Crossing[1], ttl);
    var s3 := Next(s2, Crossing[2], ttl);
    assert Next(s3, Crossing[3], ttl) == Crossed;
    assert Play(s3, Crossing[3..], ttl) == Some(Crossed);
    assert Crossing[2..][1..] == Crossing[3..];
    assert Play(s2, Crossing[2..], ttl) == Some(Crossed);
    assert Crossing[1..][1..] == Crossing[2..];
  }

  /** Without the guard a row can carry a digest the upstream did not give during the
      revalidation that set its `checked_at`. */
  lemma OverlapIsNotFresh(ttl: nat)
    ensures Run(Fill + Late + Crossing, ttl) == Crossed
    ensures !GaveWithin(Crossed.gave, Crossed.row.value.digest, Crossed.row.value.since, Crossed.row.value.checkedAt)
  {
    FillRuns(ttl);
    LateRuns(ttl);
    CrossingRuns(ttl);
    assert [] + Fill == Fill;
    RunPlays([], Fill, ttl);
    RunPlays(Fill, Late, ttl);
    RunPlays(Fill + Late, Crossing, ttl);
  }
}
