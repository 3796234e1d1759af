/**
 The pool as an object.  Each method is one atomic section: what the source does
 between taking and releasing the `entries` lock, or one operation on the
 semaphore or on an `Arc`.  A method's contract is the action it performs on the
 state of PoolProtocol; the invariant makes every sequence of them safe.
 */
module ConnectionPool {
  import opened Wrappers
  import opened PoolProtocol
  import opened PoolOwnership
  import opened PoolInvariant
  import opened PoolOverload

  class Pool {
    const max: nat
    var permits: nat
    var strong: map<nat, nat>
    var nextSlot: nat
    var entries: map<Key, CachedLease>
    var gets: map<nat, Get>
    var leases: map<nat, Lease>
    var alive: set<nat>
    var nextConn: nat

    ghost function SlotState(): Slots
      reads this
    {
      Slots(max, permits, strong, nextSlot)
    }

    ghost function Snapshot(): State
      reads this
    {
      State(SlotState(), entries, gets, leases, alive, nextConn)
    }

    ghost predicate Valid()
      reads this
    {
      Inv(Snapshot())
    }

    constructor (max: nat)
      ensures Valid() && Snapshot() == Empty(max)
    {
      this.max := max;
      permits, strong, nextSlot := max, map[], 0;
      entries, gets, leases := map[], map[], map[];
      alive, nextConn := {}, 0;
      new;
      EmptyInv(max);
    }

    // ----- the semaphore and the reference counts -----

    method CloneSlot(x: nat)
      modifies this`strong
      ensures SlotState() == CloneArc(old(SlotState()), x)
    {
      if x in strong {
        strong := strong[x := strong[x] + 1];
      }
    }

    method DropSlot(x: nat)
      modifies this`strong, this`permits
      ensures SlotState() == DropArc(old(SlotState()), x)
    {
      if x in strong {
        if strong[x] <= 1 {
          strong := strong - {x};
          permits := permits + 1;
        } else {
          strong := strong[x := strong[x] - 1];
        }
      }
    }

    method TryAcquireOwned() returns (slot: Option<nat>)
      modifies this`strong, this`permits, this`nextSlot
      ensures slot.Some? <==> old(permits) > 0
      ensures slot.Some? ==> slot.value == old(nextSlot) && SlotState() == NewArc(old(SlotState()))
      ensures slot.None? ==> SlotState() == old(SlotState())
    {
      if permits > 0 {
        slot := Some(nextSlot);
        permits, strong, nextSlot := permits - 1, strong[nextSlot := 1], nextSlot + 1;
      } else {
        slot := None;
      }
    }

    /** `entries.remove`, with the removed lease dropped. */
    method Remove(k: Key)
      modifies this`strong, this`permits, this`entries
      ensures Snapshot() == RemoveEntry(old(Snapshot()), k)
    {
      if k in entries {
        var lease := entries[k].lease;
        entries := entries - {k};
        DropSlot(lease.slot);
      }
    }

    /** Touch the entry and clone its lease. */
    method TakeHit(k: Key, now: nat, b: nat) returns (lease: Lease)
      requires k in entries
      modifies this`strong, this`entries, this`leases
      ensures Snapshot() == Hit(old(Snapshot()), k, now, b) && lease == old(entries[k].lease)
    {
      lease := entries[k].lease;
      entries := entries[k := CachedLease(lease, now)];
      CloneSlot(lease.slot);
      leases := leases[b := lease];
    }

    // ----- the sections of `get` -----

    method Begin(g: nat, key: Key)
      requires Valid() && g !in gets
      modifies this
      ensures Valid() && Step(old(Snapshot()), Call(g, key), Snapshot())
    {
      hide Inv;
      StepInv(Snapshot(), Call(g, key));
      gets := gets[g := Get(key, Entering)];
    }

    /** The first look-up: a live entry ends the call, anything else is removed. */
    method LookUpSection(g: nat, now: nat, b: nat) returns (result: Option<Lease>)
      requires Valid() && Enabled(Snapshot(), LookUp(g, now, b))
      modifies this
      ensures Valid() && Step(old(Snapshot()), LookUp(g, now, b), Snapshot())
      ensures result.Some? <==> IsAlive(old(Snapshot()), old(gets[g].key))
      ensures result.Some? ==>
                && result.value == old(entries)[old(gets[g].key)].lease && g !in gets
                && entries == old(entries)[old(gets[g].key) := CachedLease(result.value, now)]
      ensures result.None? ==> entries == old(entries) - {old(gets[g].key)}
    {
      hide Inv;
      StepInv(Snapshot(), LookUp(g, now, b));
      var key := gets[g].key;
      if key in entries && entries[key].lease.conn in alive {
        var lease := TakeHit(key, now, b);
        gets := gets - {g};
        result := Some(lease);
      } else {
        Remove(key);
        gets := gets[g := Get(key, Missed)];
        result := None;
      }
    }

    method FirstTry(g: nat) returns (acquired: bool)
      requires Valid() && g in gets && gets[g].stage.Missed?
      modifies this
      ensures Valid() && Step(old(Snapshot()), TryAcquire(g), Snapshot())
      ensures acquired <==> old(permits) > 0
      ensures g in gets && (if acquired then gets[g].stage.Reserved? else gets[g].stage.Full?)
      ensures !acquired ==> forall h :: h in gets ==> h == g || (h in old(gets) && gets[h] == old(gets)[h])
    {
      hide Inv;
      StepInv(Snapshot(), TryAcquire(g));
      var slot := TryAcquireOwned();
      acquired := slot.Some?;
      gets := gets[g := Get(gets[g].key, if acquired then Reserved(slot.value) else Full)];
    }

    /** acquire_slot takes the lock. */
    method LockSection(g: nat)
      requires Valid() && g in gets && gets[g].stage.Full? && IsUnlocked(Snapshot())
      modifies this
      ensures Valid() && Step(old(Snapshot()), Lock(g), Snapshot())
      ensures g in gets && gets[g].stage == Retaining({})
    {
      hide Inv;
      StepInv(Snapshot(), Lock(g));
      gets := gets[g := Get(gets[g].key, Retaining({}))];
    }

    /** One test of `retain`. */
    method RetainOneSection(g: nat, k: Key)
      requires Valid() && Enabled(Snapshot(), RetainOne(g, k))
      modifies this
      ensures Valid() && Step(old(Snapshot()), RetainOne(g, k), Snapshot())
      ensures k in entries <==> old(entries[k]).lease.conn in alive
      ensures g in gets && gets[g].stage == Retaining(old(gets[g].stage.seen) + {k})
    {
      hide Inv;
      StepInv(Snapshot(), RetainOne(g, k));
      var stage := Retaining(gets[g].stage.seen + {k});
      if entries[k].lease.conn !in alive {
        Remove(k);
      }
      gets := gets[g := Get(gets[g].key, stage)];
    }

    method StartScanSection(g: nat)
      requires Valid() && g in gets && gets[g].stage.Retaining? && entries.Keys <= gets[g].stage.seen
      modifies this
      ensures Valid() && Step(old(Snapshot()), StartScan(g), Snapshot())
      ensures g in gets && gets[g].stage == Scanning({}, None)
    {
      hide Inv;
      StepInv(Snapshot(), StartScan(g));
      gets := gets[g := Get(gets[g].key, Scanning({}, None))];
    }

    /** One element of filter(is_idle).min_by_key(last_used). */
    method ScanOneSection(g: nat, k: Key)
      requires Valid() && Enabled(Snapshot(), ScanOne(g, k))
      modifies this
      ensures Valid() && Step(old(Snapshot()), ScanOne(g, k), Snapshot())
    {
      hide Inv;
      StepInv(Snapshot(), ScanOne(g, k));
      var Scanning(seen, best) := gets[g].stage;
      var slot := entries[k].lease.slot;
      if slot in strong && strong[slot] == 1 {
        if best.None? || best.value !in entries || entries[k].lastUsed < entries[best.value].lastUsed {
          best := Some(k);
        }
      }
      gets := gets[g := Get(gets[g].key, Scanning(seen + {k}, best))];
    }

    /** Take the candidate out of the map and give the lock back. */
    method PickSection(g: nat)
      requires Valid() && g in gets && gets[g].stage.Scanning? && entries.Keys <= gets[g].stage.seen
      modifies this
      ensures Valid() && Step(old(Snapshot()), Pick(g), Snapshot())
      ensures g in gets && gets[g].stage.Picked?
    {
      hide Inv;
      StepInv(Snapshot(), Pick(g));
      var best := gets[g].stage.best;
      if best.Some? && best.value in entries {
        gets := gets[g := Get(gets[g].key, Picked(Some(entries[best.value].lease)))];
        entries := entries - {best.value};
      } else {
        gets := gets[g := Get(gets[g].key, Picked(None))];
      }
    }

    /** Dropping the evicted lease after the lock is released. */
    method DropEvictedSection(g: nat)
      requires Valid() && g in gets && gets[g].stage.Picked?
      modifies this
      ensures Valid() && Step(old(Snapshot()), DropEvicted(g), Snapshot())
      ensures g in gets && gets[g].stage.Retrying?
    {
      hide Inv;
      StepInv(Snapshot(), DropEvicted(g));
      var evicted := gets[g].stage.evicted;
      if evicted.Some? {
        DropSlot(evicted.value.slot);
      }
      gets := gets[g := Get(gets[g].key, Retrying)];
    }

    /** The second try; without a permit the call ends with `Overloaded`. */
    method SecondTry(g: nat) returns (overloaded: bool)
      requires Valid() && g in gets && gets[g].stage.Retrying?
      modifies this
      ensures Valid() && Step(old(Snapshot()), RetryAcquire(g), Snapshot())
      ensures overloaded <==> old(permits) == 0
      ensures if overloaded then g !in gets else g in gets && gets[g].stage.Reserved?
    {
      hide Inv;
      StepInv(Snapshot(), RetryAcquire(g));
      var slot := TryAcquireOwned();
      overloaded := slot.None?;
      if overloaded {
        gets := gets - {g};
      } else {
        gets := gets[g := Get(gets[g].key, Reserved(slot.value))];
      }
    }

    /** A section that has just been gone through, entered into the list of those since `before`. */
    ghost method Took(
      before: State, g: nat, states: seq<State>, actions: seq<Action>, a: Action)
      returns (more: seq<State>, acts: seq<Action>)
      requires Alone(before, g, states, actions) && OfAcquire(a) && a.g == g && Step(states[|actions|], a, Snapshot())
      ensures Alone(before, g, more, acts) && |more| == |acts| + 1 && more[|acts|] == Snapshot()
    {
      AloneExtends(before, g, states, actions, a, Snapshot());
      more, acts := states + [Snapshot()], actions + [a];
    }

    /** `retain` without interference: the entries in any order. */
    method RetainAlone(ghost before: State, g: nat, ghost states: seq<State>, ghost actions: seq<Action>)
      returns (ghost more: seq<State>, ghost acts: seq<Action>)
      requires Valid() && g in gets && gets[g].stage == Retaining({})
      requires Alone(before, g, states, actions) && states[|actions|] == Snapshot()
      modifies this
      ensures Valid() && Alone(before, g, more, acts) && more[|acts|] == Snapshot()
      ensures g in gets && gets[g].stage.Retaining? && entries.Keys <= gets[g].stage.seen
    {
      hide Inv, Alone;
      more, acts := states, actions;
      assert |more| == |acts| + 1 by { AloneShape(before, g, more, acts); }
      var todo := entries.Keys;
      while todo != {}
        invariant Valid() && Alone(before, g, more, acts) && |more| == |acts| + 1 && more[|acts|] == Snapshot()
        invariant g in gets && gets[g].stage.Retaining? && entries.Keys <= gets[g].stage.seen + todo
        invariant todo <= entries.Keys && todo !! gets[g].stage.seen
        decreases todo
      {
        var k :| k in todo;
        todo := todo - {k};
        RetainOneSection(g, k);
        more, acts := Took(before, g, more, acts, RetainOne(g, k));
      }
    }

    /** The scan without interference. */
    method ScanAlone(ghost before: State, g: nat, ghost states: seq<State>, ghost actions: seq<Action>)
      returns (ghost more: seq<State>, ghost acts: seq<Action>)
      requires Valid() && g in gets && gets[g].stage == Scanning({}, None)
      requires Alone(before, g, states, actions) && states[|actions|] == Snapshot()
      modifies this
      ensures Valid() && Alone(before, g, more, acts) && more[|acts|] == Snapshot()
      ensures g in gets && gets[g].stage.Scanning? && entries.Keys <= gets[g].stage.seen
    {
      hide Inv, Alone;
      more, acts := states, actions;
      assert |more| == |acts| + 1 by { AloneShape(before, g, more, acts); }
      var todo := entries.Keys;
      while todo != {}
        invariant Valid() && Alone(before, g, more, acts) && |more| == |acts| + 1 && more[|acts|] == Snapshot()
        invariant g in gets && gets[g].stage.Scanning? && entries.Keys <= gets[g].stage.seen + todo
        invariant todo <= entries.Keys && todo !! gets[g].stage.seen
        decreases todo
      {
        var k :| k in todo;
        todo := todo - {k};
        ScanOneSection(g, k);
        more, acts := Took(before, g, more, acts, ScanOne(g, k));
      }
    }

    /** The locked section without interference. */
    method EvictAlone(ghost before: State, g: nat, ghost states: seq<State>, ghost actions: seq<Action>)
      returns (ghost more: seq<State>, ghost acts: seq<Action>)
      requires Valid() && g in gets && gets[g].stage.Full? && IsUnlocked(Snapshot())
      requires Alone(before, g, states, actions) && states[|actions|] == Snapshot()
      modifies this
      ensures Valid() && Alone(before, g, more, acts) && more[|acts|] == Snapshot()
      ensures g in gets && gets[g].stage.Picked?
    {
      hide Inv, Alone, Step;
      LockSection(g);
      more, acts := Took(before, g, states, actions, Lock(g));
      more, acts := RetainAlone(before, g, more, acts);
      AloneShape(before, g, more, acts);
      StartScanSection(g);
      more, acts := Took(before, g, more, acts, StartScan(g));
      more, acts := ScanAlone(before, g, more, acts);
      AloneShape(before, g, more, acts);
      PickSection(g);
      more, acts := Took(before, g, more, acts, Pick(g));
    }

    /**
     acquire_slot with nothing in between: it fails exactly if no permit is free and every cached
     entry, live or dead, is borrowed.
     */
    method AcquireSlotAlone(g: nat) returns (acquired: bool)
      requires Valid() && g in gets && gets[g].stage.Missed? && IsUnlocked(Snapshot())
      modifies this
      ensures Valid() && (if acquired then g in gets && gets[g].stage.Reserved? else g !in gets)
      ensures acquired <==> old(permits) > 0 || exists k :: k in old(entries) && !IsBorrowed(old(Snapshot()), k)
    {
      ghost var before, states, actions: seq<Action> := Snapshot(), [Snapshot()], [];
      assert Alone(before, g, states, actions);
      hide Inv, Alone, IsBorrowed, Step;
      acquired := FirstTry(g);
      if acquired {
        return;
      }
      states, actions := Took(before, g, states, actions, TryAcquire(g));
      states, actions := EvictAlone(before, g, states, actions);
      AloneShape(before, g, states, actions);
      DropEvictedSection(g);
      states, actions := Took(before, g, states, actions, DropEvicted(g));
      var overloaded := SecondTry(g);
      states, actions := Took(before, g, states, actions, RetryAcquire(g));
      acquired := !overloaded;
      OverloadedMeansExhausted(before, g, states, actions);
    }

    method LookAgainSection(g: nat, now: nat, b: nat) returns (result: Option<Lease>)
      requires Valid() && Enabled(Snapshot(), LookAgain(g, now, b))
      modifies this
      ensures Valid() && Step(old(Snapshot()), LookAgain(g, now, b), Snapshot())
      ensures result.Some? <==> IsAlive(old(Snapshot()), old(gets[g].key))
      ensures result.Some? ==>
                && result.value == old(entries)[old(gets[g].key)].lease
                && entries == old(entries)[old(gets[g].key) := CachedLease(result.value, now)]
      ensures result.None? ==> entries == old(entries)
    {
      hide Inv;
      StepInv(Snapshot(), LookAgain(g, now, b));
      var Get(key, stage) := gets[g];
      if key in entries && entries[key].lease.conn in alive {
        var lease := TakeHit(key, now, b);
        gets := gets[g := Get(key, Leaving(stage.slot, None))];
        result := Some(lease);
      } else {
        gets := gets[g := Get(key, Connecting(stage.slot))];
        result := None;
      }
    }

    /** Name resolution and handshake: `succeeds` is up to the network. */
    method ConnectSection(g: nat, succeeds: bool)
      requires Valid() && g in gets && gets[g].stage.Connecting?
      modifies this
      ensures Valid()
      ensures Step(old(Snapshot()), if succeeds then Connect(g) else ConnectFails(g), Snapshot())
    {
      hide Inv;
      StepInv(Snapshot(), if succeeds then Connect(g) else ConnectFails(g));
      var Get(key, stage) := gets[g];
      if succeeds {
        gets := gets[g := Get(key, Connected(Lease(nextConn, stage.slot)))];
        alive, nextConn := alive + {nextConn}, nextConn + 1;
      } else {
        gets := gets - {g};
        DropSlot(stage.slot);
      }
    }

    /** The third look-up: share a live entry, or publish the new connection. */
    method PublishSection(g: nat, now: nat, b: nat) returns (result: Lease)
      requires Valid() && Enabled(Snapshot(), Publish(g, now, b))
      modifies this
      ensures Valid() && Step(old(Snapshot()), Publish(g, now, b), Snapshot())
      ensures result == if IsAlive(old(Snapshot()), old(gets[g].key))
                        then old(entries)[old(gets[g].key)].lease else old(gets[g].stage.made)
      ensures b in leases && leases[b] == result
      ensures entries == old(entries)[old(gets[g].key) := CachedLease(result, now)]
    {
      hide Inv;
      StepInv(Snapshot(), Publish(g, now, b));
      var Get(key, stage) := gets[g];
      var made := stage.made;
      if key in entries && entries[key].lease.conn in alive {
        result := TakeHit(key, now, b);
        gets := gets[g := Get(key, Leaving(made.slot, Some(made.conn)))];
      } else {
        gets := gets - {g};
        Remove(key);
        CloneSlot(made.slot);
        entries := entries[key := CachedLease(made, now)];
        leases := leases[b := made];
        result := made;
      }
    }

    /** The future of call `g` is dropped: after its result was taken, or by its caller's timeout. */
    method DropFuture(g: nat)
      requires Valid() && g in gets && (gets[g].stage.Leaving? || Cancellable(gets[g].stage))
      modifies this
      ensures Valid()
      ensures Step(old(Snapshot()), if old(gets[g].stage.Leaving?) then Leave(g) else Cancel(g), Snapshot())
    {
      hide Inv;
      StepInv(Snapshot(), if gets[g].stage.Leaving? then Leave(g) else Cancel(g));
      var own := OwnSlot(gets[g].stage);
      gets := gets - {g};
      if own.Some? {
        DropSlot(own.value);
      }
    }

    // ----- the surroundings -----

    method InvalidateKey(key: Key)
      requires Valid() && IsUnlocked(Snapshot())
      modifies this
      ensures Valid() && Step(old(Snapshot()), Invalidate(key), Snapshot())
      ensures entries == old(entries) - {key} && leases == old(leases) && gets == old(gets)
    {
      hide Inv;
      StepInv(Snapshot(), Invalidate(key));
      Remove(key);
    }

    method CopyLease(b: nat, copy: nat)
      requires Valid() && Enabled(Snapshot(), CloneLease(b, copy))
      modifies this
      ensures Valid() && Step(old(Snapshot()), CloneLease(b, copy), Snapshot())
      ensures leases == old(leases)[copy := old(leases)[b]] && entries == old(entries) && gets == old(gets)
    {
      hide Inv;
      StepInv(Snapshot(), CloneLease(b, copy));
      CloneSlot(leases[b].slot);
      leases := leases[copy := leases[b]];
    }

    method ReturnLease(b: nat)
      requires Valid() && b in leases
      modifies this
      ensures Valid() && Step(old(Snapshot()), DropLease(b), Snapshot())
      ensures leases == old(leases) - {b} && entries == old(entries) && gets == old(gets)
    {
      hide Inv;
      StepInv(Snapshot(), DropLease(b));
      var slot := leases[b].slot;
      leases := leases - {b};
      DropSlot(slot);
    }
  }
}
