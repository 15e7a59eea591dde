/**
 The local half of `herd_guard` in backend/app/core/cache.py: a map from keys to
 counted locks, used by tasks that interleave at every await. The lock itself is
 asyncio's, whose `acquire`, `release` and cancellation are modelled here as the
 environment: a release wakes the first waiter, who takes the lock only when it runs
 again, and a newcomer takes a free lock at once unless someone is waiting for it.
 */
module HerdGuard {
  import opened Common

  type Key = string
  type GuardId = nat
  type EntryId = nat

  // ---------------------------------------------------------------------
  // asyncio.Lock
  // ---------------------------------------------------------------------

  /** A waiter's future: not done, done with a result, or cancelled. */
  datatype Future = Asleep | Woken | Cancelled

  datatype Waiter = Waiter(guard: GuardId, future: Future)

  datatype Lock = Lock(locked: bool, waiters: seq<Waiter>)

  predicate AllCancelled(ws: seq<Waiter>) { forall w | w in ws :: w.future.Cancelled? }

  predicate MayTake(lock: Lock) { !lock.locked && AllCancelled(lock.waiters) }

  function WakeFirst(lock: Lock): Lock {
    if lock.waiters != [] && lock.waiters[0].future.Asleep?
    then lock.(waiters := lock.waiters[0 := lock.waiters[0].(future := Woken)]) else lock
  }

  function Released(lock: Lock): Lock { WakeFirst(lock.(locked := false)) }

  /** A release frees the lock and wakes the first waiter if it sleeps; no other waiter
      is touched, and none that was cancelled is woken. */
  lemma ReleasedMeans(lock: Lock)
    ensures var after := Released(lock);
            && !after.locked && |after.waiters| == |lock.waiters|
            && (forall i | 0 <= i < |lock.waiters| ::
                  && after.waiters[i].guard == lock.waiters[i].guard
                  && after.waiters[i].future == if i == 0 && lock.waiters[0].future == Asleep then Woken else lock.waiters[i].future)
  {
  }

  predicate Waits(lock: Lock, g: GuardId) { exists i :: 0 <= i < |lock.waiters| && lock.waiters[i].guard == g }

  function Position(ws: seq<Waiter>, g: GuardId): (i: nat)
    requires exists i :: 0 <= i < |ws| && ws[i].guard == g
    ensures i < |ws| && ws[i].guard == g
  {
    if ws[0].guard == g then 0
    else
      assert exists i :: 0 <= i < |ws[1..]| && ws[1..][i].guard == g by {
        var i :| 0 <= i < |ws| && ws[i].guard == g;
        assert ws[1..][i - 1].guard == g;
      }
      1 + Position(ws[1..], g)
  }

  function FutureOf(lock: Lock, g: GuardId): Future
    requires Waits(lock, g)
  {
    lock.waiters[Position(lock.waiters, g)].future
  }

  function Joined(lock: Lock, g: GuardId): Lock { lock.(waiters := lock.waiters + [Waiter(g, Asleep)]) }

  function CancelledWait(lock: Lock, g: GuardId): Lock
    requires Waits(lock, g)
  {
    lock.(waiters := lock.waiters[Position(lock.waiters, g) := Waiter(g, Cancelled)])
  }

  function Dequeued(lock: Lock, g: GuardId): Lock
    requires Waits(lock, g)
  {
    var i := Position(lock.waiters, g);
    lock.(waiters := lock.waiters[..i] + lock.waiters[i + 1..])
  }

  /** A woken waiter runs again. */
  function Resumed(lock: Lock, g: GuardId): Lock
    requires Waits(lock, g)
  {
    Dequeued(lock, g).(locked := true)
  }

  /** A waiter runs again to be cancelled; it passes a free lock on. */
  function GivenUp(lock: Lock, g: GuardId): Lock
    requires Waits(lock, g)
  {
    var left := Dequeued(lock, g);
    if left.locked then left else WakeFirst(left)
  }

  /** A lock, the guards queued on it and the ones holding it: one holder at most; only
      the first waiter is ever woken, and only while the lock is free; and a free lock
      with waiters has its first one running or about to, so no wake-up is lost. */
  ghost predicate LockSound(lock: Lock, queued: set<GuardId>, holding: set<GuardId>) {
    && (forall a, b | a in holding && b in holding :: a == b)
    && (lock.locked <==> holding != {})
    && (forall i, j | 0 <= i < j < |lock.waiters| :: lock.waiters[i].guard != lock.waiters[j].guard)
    && (forall g :: g in queued <==> Waits(lock, g))
    && (forall i | 0 <= i < |lock.waiters| && lock.waiters[i].future.Woken? :: i == 0 && !lock.locked)
    && (!lock.locked && lock.waiters != [] ==> !lock.waiters[0].future.Asleep?)
  }

  lemma TakeIsSound(lock: Lock, queued: set<GuardId>, holding: set<GuardId>, g: GuardId)
    requires LockSound(lock, queued, holding) && MayTake(lock)
    ensures LockSound(lock.(locked := true), queued, holding + {g})
  {
  }

  lemma JoinIsSound(lock: Lock, queued: set<GuardId>, holding: set<GuardId>, g: GuardId)
    requires LockSound(lock, queued, holding) && !MayTake(lock) && g !in queued
    ensures LockSound(Joined(lock, g), queued + {g}, holding)
  {
    var joined := Joined(lock, g);
    forall h ensures Waits(joined, h) <==> Waits(lock, h) || h == g {
      if Waits(lock, h) {
        var i :| 0 <= i < |lock.waiters| && lock.waiters[i].guard == h;
        assert joined.waiters[i].guard == h;
      }
      assert joined.waiters[|lock.waiters|].guard == g;
    }
    assert !Waits(lock, g);
  }

  lemma WakeIsSound(lock: Lock, queued: set<GuardId>)
    requires !lock.locked
    requires forall i, j | 0 <= i < j < |lock.waiters| :: lock.waiters[i].guard != lock.waiters[j].guard
    requires forall g :: g in queued <==> Waits(lock, g)
    requires forall i | 0 <= i < |lock.waiters| && lock.waiters[i].future.Woken? :: i == 0
    ensures LockSound(WakeFirst(lock), queued, {})
  {
    var woken := WakeFirst(lock);
    assert |woken.waiters| == |lock.waiters|;
    assert forall i | 0 <= i < |lock.waiters| :: woken.waiters[i].guard == lock.waiters[i].guard;
    forall h ensures Waits(woken, h) <==> Waits(lock, h) {
      if Waits(lock, h) {
        var i :| 0 <= i < |lock.waiters| && lock.waiters[i].guard == h;
        assert woken.waiters[i].guard == h;
      }
    }
  }

  lemma ReleaseIsSound(lock: Lock, queued: set<GuardId>, g: GuardId)
    requires LockSound(lock, queued, {g})
    ensures LockSound(Released(lock), queued, {})
  {
    forall h ensures Waits(lock.(locked := false), h) <==> Waits(lock, h) {
    }
    WakeIsSound(lock.(locked := false), queued);
  }

  lemma CancelIsSound(lock: Lock, queued: set<GuardId>, holding: set<GuardId>, g: GuardId)
    requires LockSound(lock, queued, holding) && g in queued
    ensures Waits(lock, g) && LockSound(CancelledWait(lock, g), queued, holding)
  {
    var after := CancelledWait(lock, g);
    assert forall i | 0 <= i < |lock.waiters| :: after.waiters[i].guard == lock.waiters[i].guard;
    forall h ensures Waits(after, h) <==> Waits(lock, h) {
      if Waits(lock, h) {
        var i :| 0 <= i < |lock.waiters| && lock.waiters[i].guard == h;
        assert after.waiters[i].guard == h;
      }
    }
  }

  lemma DequeueShifts(lock: Lock, queued: set<GuardId>, g: GuardId)
    requires forall i, j | 0 <= i < j < |lock.waiters| :: lock.waiters[i].guard != lock.waiters[j].guard
    requires (forall h :: h in queued <==> Waits(lock, h)) && g in queued
    ensures var after := Dequeued(lock, g);
            var p := Position(lock.waiters, g);
            && |after.waiters| == |lock.waiters| - 1
            && (forall i | 0 <= i < |after.waiters| :: after.waiters[i] == lock.waiters[if i < p then i else i + 1])
            && (forall h :: h in queued - {g} <==> Waits(after, h))
  {
    var after := Dequeued(lock, g);
    var p := Position(lock.waiters, g);
    forall h ensures h in queued - {g} <==> Waits(after, h) {
      if h in queued - {g} {
        var i :| 0 <= i < |lock.waiters| && lock.waiters[i].guard == h;
        assert after.waiters[if i < p then i else i - 1].guard == h;
      }
      if Waits(after, h) {
        var i :| 0 <= i < |after.waiters| && after.waiters[i].guard == h;
        assert lock.waiters[if i < p then i else i + 1].guard == h;
      }
    }
  }

  lemma ResumeIsSound(lock: Lock, queued: set<GuardId>, holding: set<GuardId>, g: GuardId)
    requires LockSound(lock, queued, holding) && g in queued && Waits(lock, g) && FutureOf(lock, g).Woken?
    ensures LockSound(Resumed(lock, g), queued - {g}, holding + {g})
  {
    DequeueShifts(lock, queued, g);
    forall h ensures Waits(Resumed(lock, g), h) <==> Waits(Dequeued(lock, g), h) {
    }
  }

  lemma GiveUpIsSound(lock: Lock, queued: set<GuardId>, holding: set<GuardId>, g: GuardId)
    requires LockSound(lock, queued, holding) && g in queued && Waits(lock, g)
    ensures LockSound(GivenUp(lock, g), queued - {g}, holding)
  {
    DequeueShifts(lock, queued, g);
    if !lock.locked {
      WakeIsSound(Dequeued(lock, g), queued - {g});
    }
  }

  // ---------------------------------------------------------------------
  // The guards
  // ---------------------------------------------------------------------

  /** An entry of `_local_locks`: the lock and the number of its users. */
  datatype Entry = Entry(lock: Lock, users: int)

  /** Waiting in `acquire`, holding the lock, or told `False` because it did not want
      to wait. Guards that have not entered or have left have no row. */
  datatype Phase = Queued | Holding | Refused

  datatype Guard = Guard(key: Key, entry: EntryId, phase: Phase)

  /** When an entry leaves the map: when nobody uses it, which is the source's rule,
      or when its lock is free, which its comment rejects. */
  datatype DropRule = ByCount | WhenUnlocked

  datatype State = State(
    table: map<Key, EntryId>, entries: map<EntryId, Entry>, guards: map<GuardId, Guard>, nextEntry: EntryId)

  datatype Step = Enter(g: GuardId, key: Key, wait: bool) | Cancel(g: GuardId) | Resume(g: GuardId) | GiveUp(g: GuardId) | Exit(g: GuardId)

  function EntryOf(s: State, g: GuardId): EntryId
    requires g in s.guards
  {
    s.guards[g].entry
  }

  predicate IsQueued(s: State, g: GuardId) {
    g in s.guards && s.guards[g].phase.Queued? && EntryOf(s, g) in s.entries && Waits(s.entries[EntryOf(s, g)].lock, g)
  }

  function Waking(s: State, g: GuardId): Future
    requires IsQueued(s, g)
  {
    FutureOf(s.entries[EntryOf(s, g)].lock, g)
  }

  /** What the map names exists. */
  predicate HasEntry(s: State, key: Key) { key in s.table ==> s.table[key] in s.entries }

  predicate Enabled(s: State, step: Step) {
    match step
    case Enter(g, key, _) => g !in s.guards && HasEntry(s, key)
    case Cancel(g) => IsQueued(s, g) && Waking(s, g).Asleep?
    case Resume(g) => IsQueued(s, g) && Waking(s, g).Woken?
    case GiveUp(g) => IsQueued(s, g) && !Waking(s, g).Asleep?
    case Exit(g) => g in s.guards && !s.guards[g].phase.Queued? && EntryOf(s, g) in s.entries
  }

  /** `_enter_local` up to the count: the key's entry, made if there is none. */
  function WithEntry(s: State, key: Key): State {
    if key in s.table then s
    else s.(table := s.table[key := s.nextEntry], entries := s.entries[s.nextEntry := Entry(Lock(false, []), 0)],
            nextEntry := s.nextEntry + 1)
  }

  function Relocked(s: State, g: GuardId, lock: Lock, phase: Phase): State
    requires g in s.guards && EntryOf(s, g) in s.entries
  {
    var e := EntryOf(s, g);
    s.(entries := s.entries[e := s.entries[e].(lock := lock)], guards := s.guards[g := s.guards[g].(phase := phase)])
  }

  /** `__aenter__` until it first waits. */
  function Entered(s0: State, g: GuardId, key: Key, wait: bool): State
    requires HasEntry(s0, key)
  {
    var s := WithEntry(s0, key);
    var e := s.table[key];
    var entry := s.entries[e].(users := s.entries[e].users + 1);
    var lock := entry.lock;
    if !wait && lock.locked then
      s.(entries := s.entries[e := entry], guards := s.guards[g := Guard(key, e, Refused)])
    else if MayTake(lock) then
      s.(entries := s.entries[e := entry.(lock := lock.(locked := true))], guards := s.guards[g := Guard(key, e, Holding)])
    else
      s.(entries := s.entries[e := entry.(lock := Joined(lock, g))], guards := s.guards[g := Guard(key, e, Queued)])
  }

  /** `_leave_local`, the lock having been left in the state `lock`. */
  function Left(s: State, g: GuardId, lock: Lock, rule: DropRule): State
    requires g in s.guards && EntryOf(s, g) in s.entries
  {
    var Guard(key, e, _) := s.guards[g];
    var users := s.entries[e].users - 1;
    var drop := match rule case ByCount => users <= 0 case WhenUnlocked => !lock.locked;
    s.(entries := s.entries[e := Entry(lock, users)],
       guards := s.guards - {g},
       table := if drop && key in s.table && s.table[key] == e then s.table - {key} else s.table)
  }

  function Next(s: State, step: Step, rule: DropRule): State
    requires Enabled(s, step)
  {
    match step
    case Enter(g, key, wait) => Entered(s, g, key, wait)
    case Cancel(g) => Relocked(s, g, CancelledWait(s.entries[EntryOf(s, g)].lock, g), Queued)
    case Resume(g) => Relocked(s, g, Resumed(s.entries[EntryOf(s, g)].lock, g), Holding)
    case GiveUp(g) => Left(s, g, GivenUp(s.entries[EntryOf(s, g)].lock, g), rule)
    case Exit(g) =>
      var lock := s.entries[EntryOf(s, g)].lock;
      Left(s, g, if s.guards[g].phase.Holding? then Released(lock) else lock, rule)
  }

  predicate TableSound(s: State) {
    && (forall k | k in s.table :: s.table[k] in s.entries)
    && (forall e | e in s.entries :: e < s.nextEntry)
    && (forall a, b | a in s.table && b in s.table && s.table[a] == s.table[b] :: a == b)
  }

  function On(guards: map<GuardId, Guard>, e: EntryId): set<GuardId> { set g | g in guards && guards[g].entry == e }

  function In(guards: map<GuardId, Guard>, e: EntryId, phase: Phase): set<GuardId> {
    set g | g in guards && guards[g].entry == e && guards[g].phase == phase
  }

  ghost predicate EntrySound(entry: Entry, guards: map<GuardId, Guard>, e: EntryId) {
    entry.users == |On(guards, e)| && LockSound(entry.lock, In(guards, e, Queued), In(guards, e, Holding))
  }

  ghost predicate EntriesSound(entries: map<EntryId, Entry>, guards: map<GuardId, Guard>) {
    forall e | e in entries :: EntrySound(entries[e], guards, e)
  }

  /** All guards on a key share the one map entry. */
  ghost predicate Shared(table: map<Key, EntryId>, guards: map<GuardId, Guard>) {
    forall g | g in guards :: guards[g].key in table && table[guards[g].key] == guards[g].entry
  }

  /** An entry stays in the map only as long as someone uses it. */
  ghost predicate InUse(table: map<Key, EntryId>, guards: map<GuardId, Guard>) {
    forall k | k in table :: exists g :: g in guards && guards[g].key == k
  }

  ghost predicate Sound(s: State) {
    && TableSound(s)
    && Shared(s.table, s.guards)
    && InUse(s.table, s.guards)
    && EntriesSound(s.entries, s.guards)
  }

  // ---------------------------------------------------------------------
  // Every step keeps it
  // ---------------------------------------------------------------------

  /** Only `g`, a guard on entry `e`, appears, changes or goes. */
  ghost predicate OnlyGuard(before: map<GuardId, Guard>, after: map<GuardId, Guard>, g: GuardId, e: EntryId) {
    && (forall h | h != g :: (h in before <==> h in after) && (h in before ==> before[h] == after[h]))
    && (g in before ==> before[g].entry == e)
    && (g in after ==> after[g].entry == e)
  }

  lemma OthersUntouched(before: map<GuardId, Guard>, after: map<GuardId, Guard>, g: GuardId, e: EntryId, other: EntryId)
    requires OnlyGuard(before, after, g, e) && other != e
    ensures On(after, other) == On(before, other)
    ensures forall p :: In(after, other, p) == In(before, other, p)
  {
  }

  lemma OtherEntriesSound(
    entries: map<EntryId, Entry>, before: map<GuardId, Guard>, after: map<GuardId, Guard>, g: GuardId, e: EntryId, entry: Entry)
    requires EntriesSound(entries, before) && OnlyGuard(before, after, g, e) && EntrySound(entry, after, e)
    ensures EntriesSound(entries[e := entry], after)
  {
    forall x | x in entries && x != e ensures EntrySound(entries[x], after, x) {
      OthersUntouched(before, after, g, e, x);
    }
  }

  lemma EntersSets(guards: map<GuardId, Guard>, g: GuardId, guard: Guard)
    requires g !in guards
    ensures var after := guards[g := guard];
            && On(after, guard.entry) == On(guards, guard.entry) + {g}
            && In(after, guard.entry, guard.phase) == In(guards, guard.entry, guard.phase) + {g}
            && forall p | p != guard.phase :: In(after, guard.entry, p) == In(guards, guard.entry, p)
  {
  }

  lemma LeavesSets(guards: map<GuardId, Guard>, g: GuardId)
    requires g in guards
    ensures var e := guards[g].entry;
            && On(guards - {g}, e) == On(guards, e) - {g} && g in On(guards, e)
            && forall p :: In(guards - {g}, e, p) == In(guards, e, p) - {g}
  {
  }

  lemma MovesSets(guards: map<GuardId, Guard>, g: GuardId, phase: Phase)
    requires g in guards && guards[g].phase.Queued? && !phase.Refused?
    ensures var e := guards[g].entry;
            var after := guards[g := guards[g].(phase := phase)];
            && On(after, e) == On(guards, e)
            && In(after, e, Queued) == StillQueued(In(guards, e, Queued), g, phase)
            && In(after, e, Holding) == NowHolding(In(guards, e, Holding), g, phase)
  {
  }

  function StillQueued(queued: set<GuardId>, g: GuardId, phase: Phase): set<GuardId> {
    if phase.Queued? then queued else queued - {g}
  }

  function NowHolding(holding: set<GuardId>, g: GuardId, phase: Phase): set<GuardId> {
    if phase.Queued? then holding else holding + {g}
  }

  lemma WithEntryIsSound(s: State, key: Key, ready: State)
    requires Sound(s) && ready == WithEntry(s, key)
    ensures TableSound(ready) && key in ready.table && ready.guards == s.guards
    ensures Shared(ready.table, s.guards) && EntriesSound(ready.entries, s.guards)
    ensures InUse(ready.table - {key}, s.guards)
  {
    if key in s.table {
      assert ready == s;
      assert InUse(s.table - {key}, s.guards);
    } else {
      NewEntryShape(s, key, ready);
    }
  }

  lemma NewEntryShape(s: State, key: Key, ready: State)
    requires TableSound(s) && Shared(s.table, s.guards) && EntriesSound(s.entries, s.guards)
    requires key !in s.table && ready == WithEntry(s, key)
    ensures TableSound(ready) && ready.guards == s.guards && ready.table - {key} == s.table && key in ready.table
    ensures Shared(ready.table, s.guards) && EntriesSound(ready.entries, s.guards)
  {
    NewEntryIsSound(s.guards, s.nextEntry);
  }

  lemma NewEntryIsSound(guards: map<GuardId, Guard>, e: EntryId)
    requires forall g | g in guards :: guards[g].entry != e
    ensures EntrySound(Entry(Lock(false, []), 0), guards, e)
  {
  }

  /** What entering makes of the entry and of the guard. */
  lemma EnterAt(guards: map<GuardId, Guard>, entry: Entry, g: GuardId, guard: Guard, lock: Lock)
    requires EntrySound(entry, guards, guard.entry) && g !in guards
    requires match guard.phase
             case Refused => lock == entry.lock
             case Holding => MayTake(entry.lock) && lock == entry.lock.(locked := true)
             case Queued => !MayTake(entry.lock) && lock == Joined(entry.lock, g)
    ensures EntrySound(Entry(lock, entry.users + 1), guards[g := guard], guard.entry)
  {
    var queued, holding := In(guards, guard.entry, Queued), In(guards, guard.entry, Holding);
    EntersSets(guards, g, guard);
    if guard.phase.Holding? {
      TakeIsSound(entry.lock, queued, holding, g);
    } else if guard.phase.Queued? {
      JoinIsSound(entry.lock, queued, holding, g);
    }
  }

  /** The three ways of entering, as one change to the entry and the guards. */
  lemma EnterShape(s: State, g: GuardId, key: Key, wait: bool, after: State, ready: State)
    returns (lock: Lock, phase: Phase)
    requires TableSound(ready) && key in ready.table && ready == WithEntry(s, key) && after == Entered(s, g, key, wait)
    ensures var e := ready.table[key];
            var entry := ready.entries[e];
            && after == ready.(entries := ready.entries[e := Entry(lock, entry.users + 1)],
                               guards := ready.guards[g := Guard(key, e, phase)])
            && match phase
               case Refused => lock == entry.lock
               case Holding => MayTake(entry.lock) && lock == entry.lock.(locked := true)
               case Queued => !MayTake(entry.lock) && lock == Joined(entry.lock, g)
  {
    lock := ready.entries[ready.table[key]].lock;
    if !wait && lock.locked {
      phase := Refused;
    } else if MayTake(lock) {
      lock, phase := lock.(locked := true), Holding;
    } else {
      lock, phase := Joined(lock, g), Queued;
    }
  }

  lemma EnterIsSound(s: State, g: GuardId, key: Key, wait: bool, after: State)
    requires Sound(s) && g !in s.guards && after == Entered(s, g, key, wait)
    ensures Sound(after)
  {
    var ready := WithEntry(s, key);
    WithEntryIsSound(s, key, ready);
    var lock, phase := EnterShape(s, g, key, wait, after, ready);
    var e := ready.table[key];
    var guard := Guard(key, e, phase);
    EnterAt(s.guards, ready.entries[e], g, guard, lock);
    ChangedIsSound(ready, g, guard, Entry(lock, ready.entries[e].users + 1), after);
  }

  /** One guard and its entry written together. */
  lemma ChangedIsSound(s: State, g: GuardId, guard: Guard, entry: Entry, after: State)
    requires TableSound(s) && Shared(s.table, s.guards) && EntriesSound(s.entries, s.guards)
    requires InUse(s.table - {guard.key}, s.guards)
    requires guard.key in s.table && s.table[guard.key] == guard.entry
    requires g in s.guards ==> s.guards[g].key == guard.key
    requires after == s.(entries := s.entries[guard.entry := entry], guards := s.guards[g := guard])
    requires EntrySound(entry, after.guards, guard.entry)
    ensures Sound(after)
  {
    OtherEntriesSound(s.entries, s.guards, after.guards, g, guard.entry, entry);
    StillInUse(s.table, s.guards, after.guards, g);
    StillShared(s.table, s.guards, g, guard);
    assert after.entries.Keys == s.entries.Keys;
  }

  lemma StillShared(table: map<Key, EntryId>, guards: map<GuardId, Guard>, g: GuardId, guard: Guard)
    requires Shared(table, guards) && guard.key in table && table[guard.key] == guard.entry
    ensures Shared(table, guards[g := guard])
  {
  }

  lemma StillInUse(table: map<Key, EntryId>, before: map<GuardId, Guard>, after: map<GuardId, Guard>, g: GuardId)
    requires g in after && InUse(table - {after[g].key}, before)
    requires after == before[g := after[g]] && (g in before ==> before[g].key == after[g].key)
    ensures InUse(table, after)
  {
    forall k | k in table ensures exists h :: h in after && after[h].key == k {
      if k == after[g].key {
        assert g in after;
      } else {
        assert k in table - {after[g].key};
        var h :| h in before && before[h].key == k;
        assert h in after && after[h].key == k;
      }
    }
  }

  lemma RelockIsSound(s: State, g: GuardId, lock: Lock, phase: Phase, after: State)
    requires Sound(s) && g in s.guards && s.guards[g].phase.Queued? && !phase.Refused?
    requires var e := EntryOf(s, g);
             LockSound(lock, StillQueued(In(s.guards, e, Queued), g, phase), NowHolding(In(s.guards, e, Holding), g, phase))
    requires after == Relocked(s, g, lock, phase)
    ensures Sound(after)
  {
    MovesSets(s.guards, g, phase);
    assert InUse(s.table - {s.guards[g].key}, s.guards);
    ChangedIsSound(s, g, s.guards[g].(phase := phase), s.entries[EntryOf(s, g)].(lock := lock), after);
  }

  lemma LeaveAt(guards: map<GuardId, Guard>, entry: Entry, g: GuardId, e: EntryId, lock: Lock)
    requires g in guards && guards[g].entry == e && EntrySound(entry, guards, e)
    requires LockSound(lock, In(guards, e, Queued) - {g}, In(guards, e, Holding) - {g})
    ensures EntrySound(Entry(lock, entry.users - 1), guards - {g}, e)
  {
    LeavesSets(guards, g);
  }

  lemma LeaveIsSound(s: State, g: GuardId, lock: Lock, after: State)
    requires Sound(s) && g in s.guards && after == Left(s, g, lock, ByCount)
    requires LockSound(lock, In(s.guards, EntryOf(s, g), Queued) - {g}, In(s.guards, EntryOf(s, g), Holding) - {g})
    ensures Sound(after)
  {
    var e := EntryOf(s, g);
    var entry := Entry(lock, s.entries[e].users - 1);
    LeftTables(s, g, lock, after);
    LeaveAt(s.guards, s.entries[e], g, e, lock);
    OtherEntriesSound(s.entries, s.guards, after.guards, g, e, entry);
    LeaveShares(s.table, s.guards, g, entry.users, after.table);
  }

  lemma LeftTables(s: State, g: GuardId, lock: Lock, after: State)
    requires TableSound(s) && Shared(s.table, s.guards) && g in s.guards && after == Left(s, g, lock, ByCount)
    ensures after.guards == s.guards - {g} && TableSound(after)
    ensures var users := s.entries[EntryOf(s, g)].users - 1;
            && after.entries == s.entries[EntryOf(s, g) := Entry(lock, users)]
            && after.table == if users <= 0 then s.table - {s.guards[g].key} else s.table
  {
  }

  /** The entry is dropped exactly when its last user leaves. */
  lemma LeaveShares(table: map<Key, EntryId>, guards: map<GuardId, Guard>, g: GuardId, users: int, after: map<Key, EntryId>)
    requires Shared(table, guards) && InUse(table, guards) && g in guards && users == |On(guards - {g}, guards[g].entry)|
    requires forall a, b | a in table && b in table && table[a] == table[b] :: a == b
    requires after == if users <= 0 then table - {guards[g].key} else table
    ensures Shared(after, guards - {g}) && InUse(after, guards - {g})
  {
    var left := On(guards - {g}, guards[g].entry);
    if users > 0 {
      var h :| h in left;
      assert h in guards - {g} && guards[h].key == guards[g].key;
      KeysInUse(table, guards, g);
      forall k | k in table ensures exists h :: h in guards - {g} && guards[h].key == k {
        assert k != guards[g].key ==> k in table - {guards[g].key};
      }
    } else {
      forall h | h in guards - {g} ensures guards[h].key != guards[g].key {
        assert h !in left;
      }
      KeysInUse(table, guards, g);
    }
  }

  lemma KeysInUse(table: map<Key, EntryId>, guards: map<GuardId, Guard>, g: GuardId)
    requires InUse(table, guards) && g in guards
    ensures InUse(table - {guards[g].key}, guards - {g})
  {
    forall k | k in table - {guards[g].key} ensures exists h :: h in guards - {g} && guards[h].key == k {
      var h :| h in guards && guards[h].key == k;
      assert h in guards - {g};
    }
  }

  lemma ExitIsSound(s: State, g: GuardId, after: State)
    requires Sound(s) && Enabled(s, Exit(g)) && after == Next(s, Exit(g), ByCount)
    ensures Sound(after)
    ensures s.guards[g].phase.Holding? ==> s.entries[EntryOf(s, g)].lock.locked
  {
    var e := EntryOf(s, g);
    var lock := s.entries[e].lock;
    var queued, holding := In(s.guards, e, Queued), In(s.guards, e, Holding);
    assert queued - {g} == queued;
    if s.guards[g].phase.Holding? {
      assert g in holding && holding == {g} && holding - {g} == {};
      ReleaseIsSound(lock, queued, g);
      LeaveIsSound(s, g, Released(lock), after);
    } else {
      assert holding - {g} == holding;
      LeaveIsSound(s, g, lock, after);
    }
  }

  lemma WaiterStepIsSound(s: State, step: Step, after: State)
    requires Sound(s) && Enabled(s, step) && !step.Enter? && !step.Exit? && after == Next(s, step, ByCount)
    ensures Sound(after)
  {
    var g := step.g;
    var e := EntryOf(s, g);
    var lock := s.entries[e].lock;
    var queued, holding := In(s.guards, e, Queued), In(s.guards, e, Holding);
    assert g in queued && holding - {g} == holding;
    if step.Cancel? {
      CancelIsSound(lock, queued, holding, g);
      RelockIsSound(s, g, CancelledWait(lock, g), Queued, after);
    } else if step.Resume? {
      ResumeIsSound(lock, queued, holding, g);
      RelockIsSound(s, g, Resumed(lock, g), Holding, after);
    } else {
      GiveUpIsSound(lock, queued, holding, g);
      LeaveIsSound(s, g, GivenUp(lock, g), after);
    }
  }

  lemma NextIsSound(s: State, step: Step)
    requires Sound(s) && Enabled(s, step)
    ensures Sound(Next(s, step, ByCount))
  {
    if step.Enter? {
      EnterIsSound(s, step.g, step.key, step.wait, Next(s, step, ByCount));
    } else if step.Exit? {
      ExitIsSound(s, step.g, Next(s, step, ByCount));
    } else {
      WaiterStepIsSound(s, step, Next(s, step, ByCount));
    }
  }

  // ---------------------------------------------------------------------
  // Runs
  // ---------------------------------------------------------------------

  const Empty := State(map[], map[], map[], 0)

  /** The state after any interleaving of guards' steps. */
  ghost function Run(steps: seq<Step>): State {
    if steps == [] then Empty
    else
      var before := Run(steps[..|steps| - 1]);
      var step := steps[|steps| - 1];
      if Enabled(before, step) then Next(before, step, ByCount) else before
  }

  lemma {:induction false} RunIsSound(steps: seq<Step>)
    ensures Sound(Run(steps))
  {
    if steps != [] {
      var before := Run(steps[..|steps| - 1]);
      RunIsSound(steps[..|steps| - 1]);
      if Enabled(before, steps[|steps| - 1]) {
        NextIsSound(before, steps[|steps| - 1]);
      }
    }
  }

  /** At most one guard per key holds the local lock, at every moment: also between a
      release and the moment the woken waiter runs, and while waiters are cancelled. */
  lemma OneHolderPerKey(steps: seq<Step>, a: GuardId, b: GuardId)
    requires var s := Run(steps);
             a in s.guards && b in s.guards && s.guards[a].key == s.guards[b].key
             && s.guards[a].phase.Holding? && s.guards[b].phase.Holding?
    ensures a == b
  {
    var s := Run(steps);
    RunIsSound(steps);
    var holding := In(s.guards, s.guards[a].entry, Holding);
    assert s.guards[a].entry in s.entries && a in holding && b in holding;
  }

  function RegisteredOn(guards: map<GuardId, Guard>, key: Key): set<GuardId> { set g | g in guards && guards[g].key == key }

  /** A key has an entry exactly while some guard is registered on it, its count is the
      number of those guards, and they all share it. */
  lemma UsersAreCounted(steps: seq<Step>, key: Key)
    ensures var s := Run(steps);
            var registered := RegisteredOn(s.guards, key);
            && (key in s.table <==> registered != {})
            && (key in s.table ==>
                  s.table[key] in s.entries && s.entries[s.table[key]].users == |registered|
                  && forall g | g in registered :: s.guards[g].entry == s.table[key])
  {
    var s := Run(steps);
    RunIsSound(steps);
    var registered := RegisteredOn(s.guards, key);
    if key in s.table {
      var g :| g in s.guards && s.guards[g].key == key;
      assert g in registered;
      assert registered == On(s.guards, s.table[key]);
    }
  }

  /** No wake-up is lost: when a key's lock is free and guards are queued on it, one of
      them has a step to take. */
  lemma NoWakeUpIsLost(steps: seq<Step>, g: GuardId)
    requires var s := Run(steps); IsQueued(s, g) && !s.entries[EntryOf(s, g)].lock.locked
    ensures var s := Run(steps);
            exists h :: h in s.guards && s.guards[h].key == s.guards[g].key && (Enabled(s, Resume(h)) || Enabled(s, GiveUp(h)))
  {
    var s := Run(steps);
    RunIsSound(steps);
    var h := SomeoneRuns(s, g);
  }

  lemma SomeoneRuns(s: State, g: GuardId) returns (h: GuardId)
    requires Sound(s) && IsQueued(s, g) && !s.entries[EntryOf(s, g)].lock.locked
    ensures h in s.guards && s.guards[h].key == s.guards[g].key && (Enabled(s, Resume(h)) || Enabled(s, GiveUp(h)))
  {
    var e := EntryOf(s, g);
    var lock := s.entries[e].lock;
    h := lock.waiters[0].guard;
    FirstIsDone(lock, In(s.guards, e, Queued), In(s.guards, e, Holding), h);
    assert h in In(s.guards, e, Queued);
  }

  lemma FirstIsDone(lock: Lock, queued: set<GuardId>, holding: set<GuardId>, h: GuardId)
    requires LockSound(lock, queued, holding) && !lock.locked && lock.waiters != [] && lock.waiters[0].guard == h
    ensures h in queued && Waits(lock, h) && !FutureOf(lock, h).Asleep?
  {
  }

  /** Leaving never releases a lock that is not held. */
  lemma HoldersHold(steps: seq<Step>, g: GuardId)
    requires var s := Run(steps); g in s.guards && s.guards[g].phase.Holding?
    ensures var s := Run(steps); EntryOf(s, g) in s.entries && s.entries[EntryOf(s, g)].lock.locked
  {
    var s := Run(steps);
    RunIsSound(steps);
    assert g in In(s.guards, EntryOf(s, g), Holding);
  }

  // ---------------------------------------------------------------------
  // Why entries are counted
  // ---------------------------------------------------------------------

  const Handover := State(
    map["k" := 0], map[0 := Entry(Lock(true, [Waiter(1, Asleep)]), 2)],
    map[0 := Guard("k", 0, Holding), 1 := Guard("k", 0, Queued)], 1)

  /** One guard holds a key's lock and another waits for it. */
  lemma HandoverIsReached()
    ensures Run([Enter(0, "k", true), Enter(1, "k", true)]) == Handover
  {
    var steps := [Enter(0, "k", true), Enter(1, "k", true)];
    assert steps[..1] == [Enter(0, "k", true)] && steps[..1][..0] == [];
    var first := Entered(Empty, 0, "k", true);
    assert Run(steps[..1]) == first;
    assert first == State(map["k" := 0], map[0 := Entry(Lock(true, []), 1)], map[0 := Guard("k", 0, Holding)], 1);
    assert Enabled(first, steps[1]);
    var second := Entered(first, 1, "k", true);
    var entry := second.entries[0];
    assert entry.lock.waiters == [Waiter(1, Asleep)];
    assert second.entries == Handover.entries && second.guards == Handover.guards;
  }

  /** Had the entry been dropped whenever its lock is free, the holder's exit would drop
      it before the woken waiter runs, and a third guard would get a lock of its own:
      two holders of one key. */
  lemma DroppingFreeLocksIsUnsound()
    ensures var released := Next(Handover, Exit(0), WhenUnlocked);
            && Enabled(released, Enter(2, "k", true))
            && var third := Next(released, Enter(2, "k", true), WhenUnlocked);
            && Enabled(third, Resume(1))
            && var both := Next(third, Resume(1), WhenUnlocked);
            both.guards == map[1 := Guard("k", 0, Holding), 2 := Guard("k", 1, Holding)]
  {
    var released := Next(Handover, Exit(0), WhenUnlocked);
    assert released.entries[0].lock.waiters == [Waiter(1, Woken)];
    assert released.entries == map[0 := Entry(Lock(false, [Waiter(1, Woken)]), 1)];
    assert released.guards == map[1 := Guard("k", 0, Queued)] && released.table == map[];
    var third := Next(released, Enter(2, "k", true), WhenUnlocked);
    assert third.guards == map[1 := Guard("k", 0, Queued), 2 := Guard("k", 1, Holding)];
    assert third.entries[0].lock == Lock(false, [Waiter(1, Woken)]);
    assert third.entries[0].lock.waiters[0].guard == 1;
    assert Position(third.entries[0].lock.waiters, 1) == 0;
  }

  // ---------------------------------------------------------------------
  // The code
  // ---------------------------------------------------------------------

  /** The process: `_local_locks`, its entries and the guards that use them. */
  class Process {
    var table: map<Key, EntryId>
    var entries: map<EntryId, Entry>
    var guards: map<GuardId, Guard>
    var nextEntry: EntryId

    constructor ()
      ensures Snapshot() == Empty
    {
      table, entries, guards, nextEntry := map[], map[], map[], 0;
    }

    ghost function Snapshot(): State
      reads this
    {
      State(table, entries, guards, nextEntry)
    }

    /** `_enter_local` */
    method EnterLocal(key: Key) returns (e: EntryId)
      requires HasEntry(Snapshot(), key)
      modifies this
      ensures e == WithEntry(old(Snapshot()), key).table[key] && e in WithEntry(old(Snapshot()), key).entries
      ensures var ready := WithEntry(old(Snapshot()), key);
              Snapshot() == ready.(entries := ready.entries[e := ready.entries[e].(users := ready.entries[e].users + 1)])
    {
      if key !in table {
        table := table[key := nextEntry];
        entries := entries[nextEntry := Entry(Lock(false, []), 0)];
        nextEntry := nextEntry + 1;
      }
      e := table[key];
      entries := entries[e := entries[e].(users := entries[e].users + 1)];
    }

    /** `__aenter__`, up to where it first waits; `entered` is what it returns if it
        does not. */
    method Enter(g: GuardId, key: Key, wait: bool) returns (entered: Option<bool>)
      requires Enabled(Snapshot(), Step.Enter(g, key, wait))
      modifies this
      ensures Snapshot() == Entered(old(Snapshot()), g, key, wait)
      ensures entered == match guards[g].phase case Holding => Some(true) case Refused => Some(false) case Queued => None
    {
      var e := EnterLocal(key);
      var lock := entries[e].lock;
      if !wait && lock.locked {
        guards := guards[g := Guard(key, e, Refused)];
        return Some(false);
      }
      if !lock.locked && AllCancelled(lock.waiters) {
        entries := entries[e := entries[e].(lock := lock.(locked := true))];
        guards := guards[g := Guard(key, e, Holding)];
        return Some(true);
      }
      entries := entries[e := entries[e].(lock := lock.(waiters := lock.waiters + [Waiter(g, Asleep)]))];
      guards := guards[g := Guard(key, e, Queued)];
      return None;
    }

    /** `_leave_local` */
    method LeaveLocal(g: GuardId)
      requires g in guards && guards[g].entry in entries
      modifies this
      ensures Snapshot() == Left(old(Snapshot()), g, old(entries[guards[g].entry].lock), ByCount)
    {
      var Guard(key, e, _) := guards[g];
      guards := guards - {g};
      entries := entries[e := entries[e].(users := entries[e].users - 1)];
      if entries[e].users <= 0 && key in table && table[key] == e {
        table := table - {key};
      }
    }

    /** `__aexit__` */
    method Exit(g: GuardId)
      requires Enabled(Snapshot(), Step.Exit(g))
      modifies this
      ensures Snapshot() == Next(old(Snapshot()), Step.Exit(g), ByCount)
    {
      if guards[g].phase.Holding? {
        var e := guards[g].entry;
        var lock := entries[e].lock.(locked := false);
        if lock.waiters != [] && lock.waiters[0].future.Asleep? {
          lock := lock.(waiters := lock.waiters[0 := lock.waiters[0].(future := Woken)]);
        }
        entries := entries[e := entries[e].(lock := lock)];
      }
      LeaveLocal(g);
    }
  }
}
