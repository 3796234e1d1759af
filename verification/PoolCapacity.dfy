/** Eviction, overload, invalidation and progress of the pool. */
module PoolCapacity {
  import opened Wrappers
  import opened PoolProtocol
  import opened PoolOwnership
  import opened PoolInvariant
  import opened PoolBounds
  import opened PoolRefinement

  // ----- releasing -----

  lemma CachedSlotsDiffer(s: State, k: Key, l: Key)
    requires Inv(s) && k in s.entries && l in s.entries && k != l
    ensures s.entries[k].lease.slot != s.entries[l].lease.slot
  {
    CachedSlots(s);
    hide Inv;
    assert SlotMap(s)[k] != SlotMap(s)[l];
  }

  lemma DropArcElsewhere(slots: Slots, x: nat, y: nat)
    requires x != y
    ensures y in DropArc(slots, x).strong <==> y in slots.strong
    ensures y in slots.strong ==> DropArc(slots, x).strong[y] == slots.strong[y]
  {
  }

  lemma RemoveEntryIdle(s: State, k: Key)
    requires Inv(s) && k in s.entries
    ensures forall l :: l != k ==> (IsIdle(RemoveEntry(s, k), l) <==> IsIdle(s, l))
    ensures RemoveEntry(s, k).slots.permits == s.slots.permits + (if IsIdle(s, k) then 1 else 0)
  {
    forall l | l in s.entries && l != k ensures IsIdle(RemoveEntry(s, k), l) <==> IsIdle(s, l) {
      CachedSlotsDiffer(s, k, l);
      hide Inv;
      DropArcElsewhere(s.slots, s.entries[k].lease.slot, s.entries[l].lease.slot);
    }
    CachedSlots(s);
    CountsPositive(s);
    hide Inv;
    assert SlotMap(s)[k] in s.slots.strong;
  }

  lemma CountsPositive(s: State)
    requires Inv(s)
    ensures forall x :: x in s.slots.strong ==> s.slots.strong[x] > 0
  {
    hide Tabulates, Paired, Numbered;
  }

  /** In every reachable state an evicted slot belongs to the evicting call alone. */
  lemma IdlenessLasts(max: nat, states: seq<State>, actions: seq<Action>, i: nat, g: nat, lease: Lease)
    requires Run(max, states, actions) && i < |states|
    requires g in states[i].gets && states[i].gets[g].stage == Picked(Some(lease))
    ensures lease.slot in states[i].slots.strong && states[i].slots.strong[lease.slot] == 1
    ensures HoldersOf(Held(states[i]), lease.slot) == {Evicting(g)}
  {
    ReachableInv(max, states, actions, i);
    hide Run, Tabulates, Numbered;
    var s := states[i];
    HeldAt(s, Evicting(g));
    ExclusiveIsSole(s, Evicting(g));
    OneHolder(Held(s), s.slots, Evicting(g));
  }

  /** A call that owns a slot alone gives back one permit, the slot and its connection when it drops it. */
  lemma ExclusiveReleases(s: State, t: State, h: Holder)
    requires Inv(s) && h in Held(s) && Exclusive(h)
    requires t.slots == DropArc(s.slots, Held(s)[h].slot) && Held(t) == Held(s) - {h}
    ensures t.slots.permits == s.slots.permits + 1 && Held(s)[h].slot !in t.slots.strong
    ensures Held(s)[h].conn.Some? ==> Held(s)[h].conn.value !in OpenConnections(t)
  {
    hide Tabulates, Numbered;
    ExclusiveIsSole(s, h);
    forall i | i in Held(t) && Held(s)[h].conn.Some? ensures Held(t)[i].conn != Held(s)[h].conn {
      assert Compatible(h, Held(s)[h], i, Held(s)[i]);
    }
  }

  /** Dropping the evicted lease returns exactly one permit. */
  lemma DroppingEvictedFreesOne(s: State, g: nat)
    requires Inv(s) && g in s.gets && s.gets[g].stage.Picked?
    ensures DropEvictedNext(s, g).slots.permits
            == s.slots.permits + (if s.gets[g].stage.evicted.Some? then 1 else 0)
  {
    if s.gets[g].stage.evicted.Some? {
      HeldAt(s, Evicting(g));
      DropEvictedHeld(s, g);
      hide Inv;
      ExclusiveReleases(s, DropEvictedNext(s, g), Evicting(g));
    }
  }

  /** The loser of a race gives back its slot and its connection. */
  lemma LoserIsReleased(s: State, g: nat)
    requires Inv(s) && g in s.gets && s.gets[g].stage.Leaving?
    ensures var stage, t := s.gets[g].stage, Finish(s, g);
            && t.slots.permits == s.slots.permits + 1 && stage.mine !in t.slots.strong
            && (stage.extra.Some? ==> stage.extra.value !in OpenConnections(t))
            && t.entries == s.entries && t.leases == s.leases
  {
    HeldAt(s, Pending(g));
    FinishHeld(s, g);
    hide Inv, OpenConnections;
    ExclusiveReleases(s, Finish(s, g), Pending(g));
  }

  /**
   So does a call that is cancelled at an await, which can happen while it waits for the lock in any of
   the sections or connects, or whose connecting fails; a call that owns no slot gives nothing back.
   */
  lemma AbandonedGetReleases(s: State, g: nat, fails: bool)
    requires Inv(s) && g in s.gets
    requires var stage := s.gets[g].stage;
             if fails then stage.Connecting?
             else stage.Entering? || stage.Full? || stage.Reserved? || stage.Connecting? || stage.Connected?
    ensures Enabled(s, if fails then ConnectFails(g) else Cancel(g))
    ensures var stage, t := s.gets[g].stage, Apply(s, if fails then ConnectFails(g) else Cancel(g));
            && t.slots.permits
               == s.slots.permits + (if stage.Reserved? || stage.Connecting? || stage.Connected? then 1 else 0)
            && Pending(g) !in Held(t) && Evicting(g) !in Held(t) && g !in t.gets
            && t.entries == s.entries && t.leases == s.leases
  {
    hide Inv;
    HeldAt(s, Pending(g));
    FinishHeld(s, g);
    HeldAt(Finish(s, g), Evicting(g));
    if OwnSlot(s.gets[g].stage).Some? {
      ExclusiveReleases(s, Finish(s, g), Pending(g));
    }
  }

  // ----- overload -----

  /** Whatever interleaves, a call that fails with `Overloaded` does so while every slot is held. */
  lemma OverloadedMeansAllHeld(max: nat, states: seq<State>, actions: seq<Action>, i: nat, g: nat)
    requires Run(max, states, actions) && i < |actions| && actions[i] == RetryAcquire(g)
    ensures g !in states[i + 1].gets <==> |states[i].slots.strong| == max
    ensures forall x :: x in states[i].slots.strong ==> exists h :: h in Held(states[i]) && Held(states[i])[h].slot == x
  {
    ReachableInv(max, states, actions, i);
    StepAt(max, states, actions, i);
    var s := states[i];
    assert s.slots.permits + |s.slots.strong| == max;
    forall x | x in s.slots.strong ensures exists h :: h in Held(s) && Held(s)[h].slot == x {
      var h := SlotHasHolder(Held(s), s.slots, x);
    }
  }

  // ----- invalidation -----

  /** Invalidating frees a permit exactly when nobody borrows the entry. */
  lemma InvalidateFreesUnborrowed(s: State, k: Key)
    requires Inv(s)
    ensures RemoveEntry(s, k).slots.permits
            == s.slots.permits + (if k in s.entries && !IsBorrowed(s, k) then 1 else 0)
  {
    if k in s.entries {
      IdleMeansUnborrowed(s, k);
      RemoveEntryIdle(s, k);
    }
  }

  /** As long as a borrower holds a lease its slot stays allocated, cached or not. */
  lemma BorrowerKeepsSlot(max: nat, states: seq<State>, actions: seq<Action>, i: nat, b: nat)
    requires Run(max, states, actions) && i < |states| && b in states[i].leases
    ensures states[i].leases[b].slot in states[i].slots.strong
    ensures states[i].slots.permits < max
  {
    ReachableInv(max, states, actions, i);
    hide Run, Tabulates, Paired, Numbered;
    HeldAt(states[i], Borrower(b));
    assert states[i].slots.strong.Keys != {};
  }

  /**
   `invalidate` takes the key, not the failed session: calling it after the session of borrower `b`
   failed spares every other session exactly when nothing else is cached under the key.
   */
  lemma InvalidateSparesOthers(s: State, b: nat, k: Key)
    requires b in s.leases
    ensures (forall l :: l in s.entries && s.entries[l].lease.conn != s.leases[b].conn
                         ==> l in RemoveEntry(s, k).entries)
            <==> (k in s.entries ==> s.entries[k].lease.conn == s.leases[b].conn)
  {
    RemoveEntryEntries(s, k);
  }

  // ----- progress -----

  function Rank(stage: Stage): nat {
    match stage
    case Entering => 10
    case Missed => 9
    case Full => 8
    case Retaining(_) => 7
    case Scanning(_, _) => 6
    case Picked(_) => 5
    case Retrying => 4
    case Reserved(_) => 3
    case Connecting(_) => 2
    case Connected(_) => 1
    case Leaving(_, _) => 0
  }

  /** The entries a call that holds the lock has still to test. */
  function Unseen(s: State, g: nat): set<Key>
    requires g in s.gets
  {
    match s.gets[g].stage
    case Retaining(seen) => s.entries.Keys - seen
    case Scanning(seen, _) => s.entries.Keys - seen
    case _ => {}
  }

  ghost predicate IsNearer(t: State, s: State, g: nat)
    requires g in s.gets && g in t.gets
  {
    || Rank(t.gets[g].stage) < Rank(s.gets[g].stage)
    || (Rank(t.gets[g].stage) == Rank(s.gets[g].stage) && Unseen(t, g) < Unseen(s, g))
  }

  lemma TestAdvances(s: State, a: Action, g: nat)
    requires Enabled(s, a) && IsStepOf(a, g) && (a.RetainOne? || a.ScanOne?)
    ensures g in Apply(s, a).gets && IsNearer(Apply(s, a), s, g)
  {
    assert a.key in Unseen(s, g) && a.key !in Unseen(Apply(s, a), g);
    assert Unseen(Apply(s, a), g) <= Unseen(s, g);
  }

  /** Each step of a call either ends it or brings it nearer to its end. */
  lemma GetAdvances(s: State, a: Action, g: nat)
    requires Enabled(s, a) && IsStepOf(a, g)
    ensures g in s.gets && (g in Apply(s, a).gets ==> IsNearer(Apply(s, a), s, g))
  {
    if a.RetainOne? || a.ScanOne? {
      TestAdvances(s, a, g);
    }
  }

  /** Nobody else's step sets it back: not its stage, nor, while it holds the lock, what it has to test. */
  lemma OthersDoNotDisturb(s: State, a: Action, g: nat)
    requires Inv(s) && Enabled(s, a) && g in s.gets && !IsStepOf(a, g)
    ensures g in Apply(s, a).gets && Apply(s, a).gets[g] == s.gets[g]
    ensures Unseen(Apply(s, a), g) == Unseen(s, g)
  {
    OthersKeepStage(s, a, g);
    if HoldsLock(s.gets[g].stage) {
      OthersAreLockFree(s, a, g);
      LockFreeStep(s, a);
    }
    hide Enabled, Apply, Inv;
  }

  lemma OthersAreLockFree(s: State, a: Action, g: nat)
    requires Locking(s) && Enabled(s, a) && g in s.gets && HoldsLock(s.gets[g].stage) && !IsStepOf(a, g)
    ensures IsLockFree(a)
  {
  }

  /** Whoever holds the lock can go on, whatever the others do: nobody waits for it in vain. */
  lemma HolderGoesOn(s: State, g: nat) returns (a: Action)
    requires g in s.gets && HoldsLock(s.gets[g].stage)
    ensures Enabled(s, a) && IsStepOf(a, g)
  {
    if k :| k in Unseen(s, g) {
      a := if s.gets[g].stage.Retaining? then RetainOne(g, k) else ScanOne(g, k);
    } else {
      forall k | k in s.entries ensures k in s.gets[g].stage.seen {
        assert k !in Unseen(s, g);
      }
      a := if s.gets[g].stage.Retaining? then StartScan(g) else Pick(g);
    }
  }
}
