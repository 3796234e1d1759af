/**
 `get` refines an atomic look-up-or-insert.  The specification is a map that one
 event at a time changes; every action of the pool is one such event.
 */
module PoolRefinement {
  import opened Wrappers
  import opened PoolProtocol
  import opened PoolOwnership
  import opened PoolInvariant

  /** The atomic cache: which lease each key has, and which connections live. */
  datatype Cache = Cache(entries: map<Key, Lease>, alive: set<nat>)

  datatype Event =
    | Returned(key: Key, lease: Lease)  // a `get` takes effect and returns this lease
    | Removed(keys: set<Key>)
    | Opened(conn: nat)
    | Died(conn: nat)
    | Internal

  ghost predicate AtomicStep(c: Cache, e: Event, d: Cache) {
    match e
    case Returned(k, lease) =>
      && d.alive == c.alive
      && if k in c.entries && c.entries[k].conn in c.alive
         then lease == c.entries[k] && d.entries == c.entries
         else && d.entries == c.entries[k := lease]
              && forall l :: l in c.entries ==> c.entries[l].conn != lease.conn && c.entries[l].slot != lease.slot
    case Removed(keys) => d == Cache(c.entries - keys, c.alive)
    case Opened(conn) => conn !in c.alive && d == Cache(c.entries, c.alive + {conn})
    case Died(conn) => d == Cache(c.entries, c.alive - {conn})
    case Internal => d == c
  }

  function View(s: State): Cache {
    Cache(map k | k in s.entries :: s.entries[k].lease, s.alive)
  }

  ghost function EventOf(s: State, a: Action): Event
    requires Enabled(s, a)
  {
    match a
    case LookUp(g, _, _) =>
      var k := s.gets[g].key;
      if IsAlive(s, k) then Returned(k, s.entries[k].lease) else Removed({k})
    case LookAgain(g, _, _) =>
      var k := s.gets[g].key;
      if IsAlive(s, k) then Returned(k, s.entries[k].lease) else Internal
    case Publish(g, _, _) =>
      var k := s.gets[g].key;
      if IsAlive(s, k) then Returned(k, s.entries[k].lease) else Returned(k, s.gets[g].stage.made)
    case RetainOne(_, k) => if IsDead(s, k) then Removed({k}) else Internal
    case Pick(g) => if s.gets[g].stage.best.Some? then Removed({s.gets[g].stage.best.value}) else Internal
    case Connect(_) => Opened(s.nextConn)
    case Invalidate(k) => Removed({k})
    case Die(conn) => Died(conn)
    case _ => Internal
  }

  /** The borrower that receives the result, for an action that returns one. */
  function Receiver(a: Action): nat {
    match a
    case LookUp(_, _, b) => b
    case LookAgain(_, _, b) => b
    case Publish(_, _, b) => b
    case _ => 0
  }

  // ----- the removals -----

  lemma RemoveEntryEntries(s: State, k: Key)
    ensures RemoveEntry(s, k).entries == s.entries - {k}
    ensures RemoveEntry(s, k).gets == s.gets && RemoveEntry(s, k).leases == s.leases
    ensures RemoveEntry(s, k).alive == s.alive && RemoveEntry(s, k).nextConn == s.nextConn
  {
  }

  lemma ViewWithout(s: State, t: State, keys: set<Key>)
    requires t.entries == s.entries - keys && t.alive == s.alive
    ensures View(t) == Cache(View(s).entries - keys, s.alive)
  {
  }

  // ----- the results -----

  /** A pending lease is nobody else's, so installing it brings a connection and slot of its own. */
  lemma MadeIsFresh(s: State, g: nat)
    requires Inv(s) && g in s.gets && s.gets[g].stage.Connected?
    ensures var made := s.gets[g].stage.made;
            forall l :: l in s.entries ==> s.entries[l].lease.conn != made.conn && s.entries[l].lease.slot != made.slot
  {
    hide Tabulates, Counted, Numbered;
    HeldAt(s, Pending(g));
    forall l | l in s.entries
      ensures s.entries[l].lease.conn != s.gets[g].stage.made.conn && s.entries[l].lease.slot != s.gets[g].stage.made.slot
    {
      HeldAt(s, Cached(l));
      assert Compatible(Pending(g), Held(s)[Pending(g)], Cached(l), Held(s)[Cached(l)]);
    }
  }

  lemma HitView(s: State, k: Key, now: nat, b: nat)
    requires k in s.entries
    ensures View(Hit(s, k, now, b)) == View(s)
    ensures Hit(s, k, now, b).leases == s.leases[b := s.entries[k].lease]
  {
  }

  /** What a refined action owes: an atomic step, and its result in the receiver's hands. */
  ghost predicate RefinesAtomically(s: State, a: Action)
    requires Enabled(s, a)
  {
    && AtomicStep(View(s), EventOf(s, a), View(Apply(s, a)))
    && (EventOf(s, a).Returned? ==>
          && Receiver(a) !in s.leases && Receiver(a) in Apply(s, a).leases
          && Apply(s, a).leases[Receiver(a)] == EventOf(s, a).lease)
  }

  lemma InstallView(s: State, g: nat, now: nat, b: nat)
    requires g in s.gets && s.gets[g].stage.Connected? && !IsAlive(s, s.gets[g].key)
    ensures var t := PublishNext(s, g, now, b);
            && View(t) == Cache(View(s).entries[s.gets[g].key := s.gets[g].stage.made], s.alive)
            && t.leases == s.leases[b := s.gets[g].stage.made]
  {
    var k, made := s.gets[g].key, s.gets[g].stage.made;
    RemoveEntryEntries(EndGet(s, g), k);
    var t := PublishNext(s, g, now, b);
    hide RemoveEntry;
    assert t.entries == (s.entries - {k})[k := CachedLease(made, now)];
    assert View(t).entries == View(s).entries[k := made];
  }

  lemma PublishRefines(s: State, g: nat, now: nat, b: nat)
    requires Inv(s) && Enabled(s, Publish(g, now, b))
    ensures RefinesAtomically(s, Publish(g, now, b))
  {
    hide Inv;
    MadeIsFresh(s, g);
    var k := s.gets[g].key;
    if IsAlive(s, k) {
      HitView(s, k, now, b);
    } else {
      InstallView(s, g, now, b);
      hide PublishNext;
    }
  }

  lemma RetainRefines(s: State, a: Action)
    requires Enabled(s, a) && a.RetainOne?
    ensures RefinesAtomically(s, a)
  {
    if IsDead(s, a.key) {
      RemoveEntryEntries(s, a.key);
      ViewWithout(s, Apply(s, a), {a.key});
    }
  }

  lemma PickRefines(s: State, a: Action)
    requires Inv(s) && Enabled(s, a) && a.Pick?
    ensures RefinesAtomically(s, a)
  {
    hide Accounted;
    var best := s.gets[a.g].stage.best;
    if best.Some? {
      ViewWithout(s, Apply(s, a), {best.value});
    }
  }

  lemma LookUpRefines(s: State, a: Action)
    requires Enabled(s, a) && (a.LookUp? || a.LookAgain?)
    ensures RefinesAtomically(s, a)
  {
    var k := s.gets[a.g].key;
    if IsAlive(s, k) {
      HitView(s, k, a.now, a.b);
    } else if a.LookUp? {
      ViewWithout(s, Apply(s, a), {k});
    }
  }

  lemma ConnectRefines(s: State, g: nat)
    requires Inv(s) && Enabled(s, Connect(g))
    ensures RefinesAtomically(s, Connect(g))
  {
    hide Accounts;
  }

  lemma OtherRefines(s: State, a: Action)
    requires Enabled(s, a)
    requires !a.LookUp? && !a.LookAgain? && !a.Publish? && !a.RetainOne? && !a.Pick? && !a.Connect?
    ensures RefinesAtomically(s, a)
  {
    if a.Invalidate? {
      ViewWithout(s, Apply(s, a), {a.key});
    } else {
      assert Apply(s, a).entries == s.entries;
    }
  }

  /** Every action is one atomic event, and a returned lease is what its receiver holds. */
  lemma Refines(s: State, a: Action)
    requires Inv(s) && Enabled(s, a)
    ensures RefinesAtomically(s, a)
  {
    hide Inv, RefinesAtomically;
    match a {
      case Publish(g, now, b) => PublishRefines(s, g, now, b);
      case RetainOne(_, _) => RetainRefines(s, a);
      case Pick(_) => PickRefines(s, a);
      case LookUp(_, _, _) => LookUpRefines(s, a);
      case LookAgain(_, _, _) => LookUpRefines(s, a);
      case Connect(g) => ConnectRefines(s, g);
      case _ => OtherRefines(s, a);
    }
  }

  /** Every run of the pool, seen from outside, is a run of the atomic cache. */
  lemma RunRefines(max: nat, states: seq<State>, actions: seq<Action>, i: nat)
    requires Run(max, states, actions) && i < |actions|
    ensures View(states[0]) == Cache(map[], {})
    ensures Enabled(states[i], actions[i])
    ensures AtomicStep(View(states[i]), EventOf(states[i], actions[i]), View(states[i + 1]))
  {
    ReachableInv(max, states, actions, i);
    StepAt(max, states, actions, i);
    hide Inv, Run, Enabled, Apply, EventOf, AtomicStep;
    Refines(states[i], actions[i]);
  }

  // ----- dead results -----

  /**
   A call returns a dead lease exactly if it is about to publish a connection that has died since the
   handshake and the key has no live entry: both look-ups return live leases only.
   */
  lemma DeadResultIff(s: State, a: Action, key: Key, lease: Lease)
    requires Returns(s, a, key, lease)
    ensures lease.conn !in s.alive
            <==> a.Publish? && !IsAlive(s, key) && s.gets[a.g].stage.made.conn !in s.alive
  {
  }

  // ----- convergence -----

  /** The two ways in which a live entry can leave the map. */
  predicate Takes(s: State, a: Action, key: Key) {
    || a == Invalidate(key)
    || (a.Pick? && a.g in s.gets && s.gets[a.g].stage.Scanning? && s.gets[a.g].stage.best == Some(key))
  }

  /** `a` makes a `get` of `key` return `lease`. */
  ghost predicate Returns(s: State, a: Action, key: Key, lease: Lease) {
    Enabled(s, a) && EventOf(s, a) == Returned(key, lease)
  }

  lemma AliveStep(s: State, a: Action)
    requires Enabled(s, a)
    ensures Apply(s, a).alive <= s.alive + {s.nextConn}
  {
    hide CloneArc, DropArc, NewArc, Better;
  }

  lemma LivenessIsMonotone(s: State, a: Action, conn: nat)
    requires Enabled(s, a)
    requires conn < s.nextConn && conn in Apply(s, a).alive
    ensures conn in s.alive
  {
    AliveStep(s, a);
    hide *;
  }

  lemma RemovalsAreDead(s: State, a: Action, key: Key)
    requires Enabled(s, a) && IsAlive(s, key) && !Takes(s, a, key)
    ensures EventOf(s, a).Removed? ==> key !in EventOf(s, a).keys
  {
  }

  lemma AtomicStepKeeps(c: Cache, e: Event, d: Cache, key: Key)
    requires AtomicStep(c, e, d)
    requires key in c.entries && c.entries[key].conn in c.alive
    requires e.Removed? ==> key !in e.keys
    ensures key in d.entries && d.entries[key] == c.entries[key]
    ensures e.Returned? && e.key == key ==> e.lease == c.entries[key]
  {
  }

  lemma LiveEntryStays(s: State, a: Action, key: Key)
    requires Inv(s) && Enabled(s, a) && IsAlive(s, key) && !Takes(s, a, key)
    ensures key in Apply(s, a).entries && Apply(s, a).entries[key].lease == s.entries[key].lease
    ensures forall l :: Returns(s, a, key, l) ==> l == s.entries[key].lease
  {
    Refines(s, a);
    RemovalsAreDead(s, a, key);
    hide Inv, Enabled, Apply, EventOf, AtomicStep, Takes;
    var d := View(Apply(s, a));
    AtomicStepKeeps(View(s), EventOf(s, a), d, key);
    assert key in d.entries;
  }

  lemma StepAt(max: nat, states: seq<State>, actions: seq<Action>, i: nat)
    requires Run(max, states, actions) && i < |actions|
    ensures Enabled(states[i], actions[i]) && states[i + 1] == Apply(states[i], actions[i])
  {
    hide Enabled, Apply;
    assert Step(states[i], actions[i], states[i + 1]);
  }

  lemma StepNumbers(s: State, a: Action)
    requires Enabled(s, a)
    ensures s.nextConn <= Apply(s, a).nextConn
  {
    hide CloneArc, DropArc, NewArc, Better;
  }

  lemma CachedConnNumbered(s: State, key: Key)
    requires Inv(s) && key in s.entries
    ensures s.entries[key].lease.conn < s.nextConn
  {
    hide Tabulates, Counted, Paired;
    HeldAt(s, Cached(key));
  }

  lemma {:induction false} ConnNumbered(
    max: nat, states: seq<State>, actions: seq<Action>, i: nat, j: nat, key: Key)
    requires Run(max, states, actions) && i <= j < |states|
    requires key in states[i].entries
    ensures states[i].entries[key].lease.conn < states[j].nextConn
    decreases j
  {
    if i == j {
      ReachableInv(max, states, actions, i);
      hide Run, Inv;
      CachedConnNumbered(states[i], key);
    } else {
      ConnNumbered(max, states, actions, i, j - 1, key);
      StepAt(max, states, actions, j - 1);
      hide Run, Enabled, Apply;
      StepNumbers(states[j - 1], actions[j - 1]);
    }
  }

  lemma {:induction false} AliveBefore(
    max: nat, states: seq<State>, actions: seq<Action>, m: nat, j: nat, conn: nat)
    requires Run(max, states, actions) && m <= j < |states|
    requires conn < states[m].nextConn && conn in states[j].alive
    ensures conn in states[m].alive
    decreases j - m
  {
    if m < j {
      StepAt(max, states, actions, m);
      ReachableInv(max, states, actions, m);
      hide Run, Inv, Enabled, Apply;
      StepNumbers(states[m], actions[m]);
      AliveBefore(max, states, actions, m + 1, j, conn);
      LivenessIsMonotone(states[m], actions[m], conn);
    }
  }

  lemma {:induction false} EntryPersists(
    max: nat, states: seq<State>, actions: seq<Action>, i: nat, j: nat, key: Key, lease: Lease)
    requires Run(max, states, actions) && i <= j < |states|
    requires IsAlive(states[i], key) && lease == states[i].entries[key].lease
    requires lease.conn in states[j].alive
    requires forall m :: i <= m < j ==> !Takes(states[m], actions[m], key)
    ensures key in states[j].entries && states[j].entries[key].lease == lease
    decreases j
  {
    if i < j {
      StepAt(max, states, actions, j - 1);
      ReachableInv(max, states, actions, j - 1);
      ConnNumbered(max, states, actions, i, j - 1, key);
      hide Run, Inv, Enabled, Apply, Takes, Returns;
      LivenessIsMonotone(states[j - 1], actions[j - 1], lease.conn);
      EntryPersists(max, states, actions, i, j - 1, key, lease);
      LiveEntryStays(states[j - 1], actions[j - 1], key);
    }
  }

  /**
   As long as a key's cached connection lives and nothing takes the entry away, the entry stays the
   same and every `get` of the key returns it: racing calls converge on one lease.
   */
  lemma RacingGetsConverge(
    max: nat, states: seq<State>, actions: seq<Action>, i: nat, j: nat, key: Key)
    requires Run(max, states, actions) && i <= j < |states|
    requires IsAlive(states[i], key)
    requires states[i].entries[key].lease.conn in states[j].alive
    requires forall m :: i <= m < j ==> !Takes(states[m], actions[m], key)
    ensures IsAlive(states[j], key) && states[j].entries[key].lease == states[i].entries[key].lease
    ensures forall m, l :: i <= m < j && Returns(states[m], actions[m], key, l)
                           ==> l == states[i].entries[key].lease
  {
    assert |states| == |actions| + 1;
    hide Run, Returns;
    var lease := states[i].entries[key].lease;
    EntryPersists(max, states, actions, i, j, key, lease);
    forall m, l | i <= m < j && Returns(states[m], actions[m], key, l) ensures l == lease {
      ConnNumbered(max, states, actions, i, m, key);
      AliveBefore(max, states, actions, m, j, lease.conn);
      EntryPersists(max, states, actions, i, m, key, lease);
      StepAt(max, states, actions, m);
      ReachableInv(max, states, actions, m);
      LiveEntryStays(states[m], actions[m], key);
    }
  }
}
