/**
 The bounded QUIC / HTTP-3 connection pool (src/upstream/quic_pool.rs) as a
 state machine.  `get` runs in several separately locked sections; every
 section, and every event of the surroundings that can fall between two of
 them, is one action here.  The long section of acquire_slot is one action for
 each entry it tests, because leases are dropped and connections die without
 the lock.  A run is any sequence of enabled actions.

 The two pools of the source differ only in their liveness test, which is
 monotone in both: the set `alive` stands for it.
 */
module PoolProtocol {
  import opened Wrappers

  datatype Application = Doq | H3

  /** The HTTP-3 pool keys on host and port alone: its application is always H3. */
  datatype Key = Key(application: Application, hostname: string, port: nat)

  /** A lease is a connection together with a counted reference to its slot. */
  datatype Lease = Lease(conn: nat, slot: nat)

  datatype CachedLease = CachedLease(lease: Lease, lastUsed: nat)

  /** Where one call of `get` stands, with the local variables it owns there. */
  datatype Stage =
    | Entering                              // waiting for the first look-up's lock
    | Missed                                // about to try the semaphore
    | Full                                  // waiting for the lock in acquire_slot
    | Retaining(seen: set<Key>)             // has the lock; drops dead entries, one test at a time
    | Scanning(seen: set<Key>, best: Option<Key>) // has the lock; looks for the oldest idle entry
    | Picked(evicted: Option<Lease>)        // about to drop the evicted lease
    | Retrying                              // about to try the semaphore again
    | Reserved(slot: nat)                   // waiting for the second look-up's lock
    | Connecting(slot: nat)                 // resolving and shaking hands
    | Connected(made: Lease)               // waiting for the third look-up's lock
    | Leaving(mine: nat, extra: Option<nat>) // has its result; about to drop its own slot

  datatype Get = Get(key: Key, stage: Stage)

  /** The semaphore and the slots allocated from it, each with its `Arc::strong_count`. */
  datatype Slots = Slots(max: nat, permits: nat, strong: map<nat, nat>, next: nat)

  datatype State = State(
    slots: Slots,
    entries: map<Key, CachedLease>,
    gets: map<nat, Get>,            // calls of `get` that have not returned
    leases: map<nat, Lease>,        // leases held outside the pool
    alive: set<nat>,
    nextConn: nat)

  datatype Action =
    | Call(g: nat, key: Key)
    | LookUp(g: nat, now: nat, b: nat)
    | TryAcquire(g: nat)
    | Lock(g: nat)
    | RetainOne(g: nat, key: Key)
    | StartScan(g: nat)
    | ScanOne(g: nat, key: Key)
    | Pick(g: nat)
    | DropEvicted(g: nat)
    | RetryAcquire(g: nat)
    | LookAgain(g: nat, now: nat, b: nat)
    | Connect(g: nat)
    | ConnectFails(g: nat)
    | Publish(g: nat, now: nat, b: nat)
    | Leave(g: nat)
    | Cancel(g: nat)
    | Invalidate(key: Key)
    | CloneLease(b: nat, copy: nat)
    | DropLease(b: nat)
    | Die(conn: nat)

  function Empty(max: nat): State {
    State(Slots(max, max, map[], 0), map[], map[], map[], {}, 0)
  }

  // ----- reference counts -----

  /** `Arc::clone` of a slot. */
  function CloneArc(slots: Slots, x: nat): Slots {
    if x in slots.strong then slots.(strong := slots.strong[x := slots.strong[x] + 1]) else slots
  }

  /** Drop one reference; the last one drops the `PoolSlot` and with it the permit. */
  function DropArc(slots: Slots, x: nat): Slots {
    if x !in slots.strong then slots
    else if slots.strong[x] <= 1 then slots.(strong := slots.strong - {x}, permits := slots.permits + 1)
    else slots.(strong := slots.strong[x := slots.strong[x] - 1])
  }

  /** `try_acquire_owned` on a semaphore with a free permit, wrapped in `Arc::new`. */
  function NewArc(slots: Slots): Slots
    requires slots.permits > 0
  {
    slots.(permits := slots.permits - 1, strong := slots.strong[slots.next := 1], next := slots.next + 1)
  }

  predicate IsAlive(s: State, k: Key) {
    k in s.entries && s.entries[k].lease.conn in s.alive
  }

  predicate IsDead(s: State, k: Key) {
    k in s.entries && s.entries[k].lease.conn !in s.alive
  }

  predicate IsIdle(s: State, k: Key) {
    && k in s.entries
    && s.entries[k].lease.slot in s.slots.strong
    && s.slots.strong[s.entries[k].lease.slot] == 1
  }

  // ----- pieces the locked sections share -----

  function SetStage(s: State, g: nat, stage: Stage): State
    requires g in s.gets
  {
    s.(gets := s.gets[g := Get(s.gets[g].key, stage)])
  }

  function EndGet(s: State, g: nat): State {
    s.(gets := s.gets - {g})
  }

  /** Remove the entry, if any, and drop its lease. */
  function RemoveEntry(s: State, k: Key): State {
    if k in s.entries
    then s.(entries := s.entries - {k}, slots := DropArc(s.slots, s.entries[k].lease.slot))
    else s
  }

  /** A hit: refresh `last_used` and hand a clone of the cached lease to borrower `b`. */
  function Hit(s: State, k: Key, now: nat, b: nat): State
    requires k in s.entries
  {
    var lease := s.entries[k].lease;
    s.(entries := s.entries[k := CachedLease(lease, now)],
       leases := s.leases[b := lease],
       slots := CloneArc(s.slots, lease.slot))
  }

  function Reserve(s: State, g: nat): State
    requires g in s.gets && s.slots.permits > 0
  {
    SetStage(s.(slots := NewArc(s.slots)), g, Reserved(s.slots.next))
  }

  // ----- the sections of `get` -----

  function LookUpNext(s: State, g: nat, now: nat, b: nat): State
    requires g in s.gets
  {
    var key := s.gets[g].key;
    if IsAlive(s, key) then EndGet(Hit(s, key, now, b), g)
    else SetStage(RemoveEntry(s, key), g, Missed)
  }

  function TryAcquireNext(s: State, g: nat): State
    requires g in s.gets
  {
    if s.slots.permits > 0 then Reserve(s, g) else SetStage(s, g, Full)
  }

  /** The call holds the lock over several steps, between which lock-free steps of others can fall. */
  predicate HoldsLock(stage: Stage) {
    stage.Retaining? || stage.Scanning?
  }

  ghost predicate IsUnlocked(s: State) {
    forall g :: g in s.gets ==> !HoldsLock(s.gets[g].stage)
  }

  /** One test of `retain`: a dead entry is dropped on the spot. */
  function RetainOneNext(s: State, g: nat, k: Key): State
    requires g in s.gets && s.gets[g].stage.Retaining?
  {
    var s1 := if IsDead(s, k) then RemoveEntry(s, k) else s;
    SetStage(s1, g, Retaining(s.gets[g].stage.seen + {k}))
  }

  /** The better of the candidate so far and an entry: the entry if it is idle and strictly older. */
  function Better(s: State, best: Option<Key>, k: Key): Option<Key> {
    if IsIdle(s, k) && (best.None? || best.value !in s.entries || s.entries[k].lastUsed < s.entries[best.value].lastUsed)
    then Some(k) else best
  }

  /** One element of filter(is_idle).min_by_key(last_used), which visits the map in any order. */
  function ScanOneNext(s: State, g: nat, k: Key): State
    requires g in s.gets && s.gets[g].stage.Scanning?
  {
    var Scanning(seen, best) := s.gets[g].stage;
    SetStage(s, g, Scanning(seen + {k}, Better(s, best, k)))
  }

  /** Take the victim out of the map; its lease moves to the evicting call. */
  function PickNext(s: State, g: nat): State
    requires g in s.gets && s.gets[g].stage.Scanning?
  {
    var best := s.gets[g].stage.best;
    if best.Some? && best.value in s.entries
    then SetStage(s.(entries := s.entries - {best.value}), g, Picked(Some(s.entries[best.value].lease)))
    else SetStage(s, g, Picked(None))
  }

  function DropEvictedNext(s: State, g: nat): State
    requires g in s.gets && s.gets[g].stage.Picked?
  {
    var evicted := s.gets[g].stage.evicted;
    var s1 := SetStage(s, g, Retrying);
    if evicted.Some? then s1.(slots := DropArc(s1.slots, evicted.value.slot)) else s1
  }

  /** Without a permit the call fails with `Overloaded`. */
  function RetryAcquireNext(s: State, g: nat): State
    requires g in s.gets
  {
    if s.slots.permits > 0 then Reserve(s, g) else EndGet(s, g)
  }

  function LookAgainNext(s: State, g: nat, now: nat, b: nat): State
    requires g in s.gets && s.gets[g].stage.Reserved?
  {
    var Get(key, stage) := s.gets[g];
    if IsAlive(s, key) then SetStage(Hit(s, key, now, b), g, Leaving(stage.slot, None))
    else SetStage(s, g, Connecting(stage.slot))
  }

  function ConnectNext(s: State, g: nat): State
    requires g in s.gets && s.gets[g].stage.Connecting?
  {
    SetStage(s.(alive := s.alive + {s.nextConn}, nextConn := s.nextConn + 1),
             g, Connected(Lease(s.nextConn, s.gets[g].stage.slot)))
  }

  function PublishNext(s: State, g: nat, now: nat, b: nat): State
    requires g in s.gets && s.gets[g].stage.Connected?
  {
    var Get(key, stage) := s.gets[g];
    var made := stage.made;
    if IsAlive(s, key) then SetStage(Hit(s, key, now, b), g, Leaving(made.slot, Some(made.conn)))
    else
      var s1 := RemoveEntry(EndGet(s, g), key);
      s1.(entries := s1.entries[key := CachedLease(made, now)],
          leases := s1.leases[b := made],
          slots := CloneArc(s1.slots, made.slot))
  }

  function OwnSlot(stage: Stage): Option<nat> {
    match stage
    case Reserved(slot) => Some(slot)
    case Connecting(slot) => Some(slot)
    case Connected(made) => Some(made.slot)
    case Leaving(mine, _) => Some(mine)
    case _ => None
  }

  /** The future ends, by return, error or cancellation, and drops what it owns. */
  function Finish(s: State, g: nat): State
    requires g in s.gets
  {
    var own := OwnSlot(s.gets[g].stage);
    if own.Some? then EndGet(s, g).(slots := DropArc(s.slots, own.value)) else EndGet(s, g)
  }

  /** The stages that wait at an await point, where the caller's timeout can drop the future. */
  predicate Cancellable(stage: Stage) {
    stage.Entering? || stage.Full? || stage.Reserved? || stage.Connecting? || stage.Connected?
  }

  // ----- the transition relation -----

  ghost predicate Enabled(s: State, a: Action) {
    match a
    case Call(g, _) => g !in s.gets
    case LookUp(g, _, b) => g in s.gets && s.gets[g].stage.Entering? && IsUnlocked(s) && b !in s.leases
    case TryAcquire(g) => g in s.gets && s.gets[g].stage.Missed?
    case Lock(g) => g in s.gets && s.gets[g].stage.Full? && IsUnlocked(s)
    case RetainOne(g, k) =>
      g in s.gets && s.gets[g].stage.Retaining? && k in s.entries && k !in s.gets[g].stage.seen
    case StartScan(g) =>
      g in s.gets && s.gets[g].stage.Retaining? && s.entries.Keys <= s.gets[g].stage.seen
    case ScanOne(g, k) =>
      g in s.gets && s.gets[g].stage.Scanning? && k in s.entries && k !in s.gets[g].stage.seen
    case Pick(g) =>
      g in s.gets && s.gets[g].stage.Scanning? && s.entries.Keys <= s.gets[g].stage.seen
    case DropEvicted(g) => g in s.gets && s.gets[g].stage.Picked?
    case RetryAcquire(g) => g in s.gets && s.gets[g].stage.Retrying?
    case LookAgain(g, _, b) => g in s.gets && s.gets[g].stage.Reserved? && IsUnlocked(s) && b !in s.leases
    case Connect(g) => g in s.gets && s.gets[g].stage.Connecting?
    case ConnectFails(g) => g in s.gets && s.gets[g].stage.Connecting?
    case Publish(g, _, b) => g in s.gets && s.gets[g].stage.Connected? && IsUnlocked(s) && b !in s.leases
    case Leave(g) => g in s.gets && s.gets[g].stage.Leaving?
    case Cancel(g) => g in s.gets && Cancellable(s.gets[g].stage)
    case Invalidate(_) => IsUnlocked(s)
    case CloneLease(b, copy) => b in s.leases && copy !in s.leases
    case DropLease(b) => b in s.leases
    case Die(_) => true
  }

  ghost function Apply(s: State, a: Action): State
    requires Enabled(s, a)
  {
    match a
    case Call(g, key) => s.(gets := s.gets[g := Get(key, Entering)])
    case LookUp(g, now, b) => LookUpNext(s, g, now, b)
    case TryAcquire(g) => TryAcquireNext(s, g)
    case Lock(g) => SetStage(s, g, Retaining({}))
    case RetainOne(g, k) => RetainOneNext(s, g, k)
    case StartScan(g) => SetStage(s, g, Scanning({}, None))
    case ScanOne(g, k) => ScanOneNext(s, g, k)
    case Pick(g) => PickNext(s, g)
    case DropEvicted(g) => DropEvictedNext(s, g)
    case RetryAcquire(g) => RetryAcquireNext(s, g)
    case LookAgain(g, now, b) => LookAgainNext(s, g, now, b)
    case Connect(g) => ConnectNext(s, g)
    case ConnectFails(g) => Finish(s, g)
    case Publish(g, now, b) => PublishNext(s, g, now, b)
    case Leave(g) => Finish(s, g)
    case Cancel(g) => Finish(s, g)
    case Invalidate(key) => RemoveEntry(s, key)
    case CloneLease(b, copy) =>
      s.(leases := s.leases[copy := s.leases[b]], slots := CloneArc(s.slots, s.leases[b].slot))
    case DropLease(b) =>
      s.(leases := s.leases - {b}, slots := DropArc(s.slots, s.leases[b].slot))
    case Die(conn) => s.(alive := s.alive - {conn})
  }

  /** The steps that call `g` takes itself, after it has begun. */
  predicate IsStepOf(a: Action, g: nat) {
    match a
    case Call(_, _) => false
    case Invalidate(_) => false
    case CloneLease(_, _) => false
    case DropLease(_) => false
    case Die(_) => false
    case _ => a.g == g
  }

  /** States and the actions between them, from an empty pool of `max` slots. */
  ghost predicate Run(max: nat, states: seq<State>, actions: seq<Action>) {
    && |states| == |actions| + 1
    && states[0] == Empty(max)
    && forall i :: 0 <= i < |actions| ==> Step(states[i], actions[i], states[i + 1])
  }

  ghost predicate Step(s: State, a: Action, t: State) {
    Enabled(s, a) && t == Apply(s, a)
  }
}
