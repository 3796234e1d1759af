/**
 The long locked section of acquire_slot: one test after another, while leases
 are dropped and connections die in between.
 */
module PoolEviction {
  import opened Wrappers
  import opened PoolProtocol
  import opened PoolOwnership
  import opened PoolInvariant
  import opened PoolRefinement
  import opened PoolRecency
  import opened PoolCapacity

  // ----- what a section knows, from the moment it took the lock -----

  /** The map has only lost entries whose connection is dead; idle entries are still idle. */
  ghost predicate Shrunk(s0: State, s: State) {
    && (forall k :: k in s.entries ==> k in s0.entries && s.entries[k] == s0.entries[k])
    && (forall k :: k in s0.entries && k !in s.entries ==> s0.entries[k].lease.conn !in s.alive)
    && (forall k :: k in s.entries && IsIdle(s0, k) ==> IsIdle(s, k))
    && (forall c :: c < s0.nextConn && c in s.alive ==> c in s0.alive)
    && s0.nextConn <= s.nextConn
  }

  /** Every entry in `seen` that is still there was alive at the start. */
  ghost predicate SurvivorsAlive(s0: State, s: State, seen: set<Key>) {
    forall k :: k in seen && k in s.entries ==> IsAlive(s0, k)
  }

  /** The candidate is at least as old as every seen entry that was idle at the start. */
  ghost predicate Oldest(s0: State, s: State, seen: set<Key>, best: Option<Key>) {
    && (best.Some? ==> best.value in s.entries && IsIdle(s, best.value))
    && (forall k :: k in seen && k in s.entries && IsIdle(s0, k)
          ==> best.Some? && s.entries[best.value].lastUsed <= s.entries[k].lastUsed)
  }

  ghost predicate Knows(s0: State, s: State, g: nat) {
    && g in s.gets && Shrunk(s0, s)
    && match s.gets[g].stage
       case Retaining(seen) => SurvivorsAlive(s0, s, seen)
       case Scanning(seen, best) => SurvivorsAlive(s0, s, s.entries.Keys) && Oldest(s0, s, seen, best)
       case _ => false
  }

  lemma KnowsAtStart(s: State, g: nat)
    requires Enabled(s, Lock(g))
    ensures Knows(s, Apply(s, Lock(g)), g)
  {
  }

  // ----- each step keeps what it knows -----

  lemma AliveFalls(s: State, a: Action)
    requires Inv(s) && Enabled(s, a)
    ensures forall c :: c < s.nextConn && c in Apply(s, a).alive ==> c in s.alive
    ensures s.nextConn <= Apply(s, a).nextConn
  {
    StepNumbers(s, a);
    hide Inv, Enabled, Apply;
    forall c | c < s.nextConn && c in Apply(s, a).alive ensures c in s.alive {
      LivenessIsMonotone(s, a, c);
    }
  }

  lemma ShrunkStays(s0: State, s: State, t: State)
    requires Shrunk(s0, s) && t.entries == s.entries
    requires forall k :: k in s.entries && IsIdle(s, k) ==> IsIdle(t, k)
    requires forall c :: c < s.nextConn && c in t.alive ==> c in s.alive
    requires s.nextConn <= t.nextConn
    requires forall k :: k in s0.entries ==> s0.entries[k].lease.conn < s0.nextConn
    ensures Shrunk(s0, t)
  {
    hide IsIdle;
  }

  lemma ConnsNumbered(s: State)
    requires Inv(s)
    ensures forall k :: k in s.entries ==> s.entries[k].lease.conn < s.nextConn
  {
    hide Inv;
    forall k | k in s.entries ensures s.entries[k].lease.conn < s.nextConn {
      CachedConnNumbered(s, k);
    }
  }

  /** A step that neither takes from the map nor adds to it. */
  lemma ShrunkByLockFree(s0: State, s: State, a: Action)
    requires Inv(s0) && Inv(s) && Enabled(s, a) && IsLockFree(a) && Shrunk(s0, s)
    ensures Shrunk(s0, Apply(s, a)) && Apply(s, a).entries == s.entries
    ensures forall k :: k in s.entries && IsIdle(s, k) ==> IsIdle(Apply(s, a), k)
  {
    StepInv(s, a);
    AliveFalls(s, a);
    LockFreeStep(s, a);
    ConnsNumbered(s0);
    forall k | k in s.entries && IsIdle(s, k) ensures IsIdle(Apply(s, a), k) {
      IdleStays(s, a, k);
    }
    hide *;
    ShrunkStays(s0, s, Apply(s, a));
  }

  lemma KnowledgeCarries(s0: State, s: State, t: State, g: nat)
    requires Knows(s0, s, g) && Shrunk(s0, t) && t.entries == s.entries && g in t.gets && t.gets[g] == s.gets[g]
    requires forall k :: k in s.entries && IsIdle(s, k) ==> IsIdle(t, k)
    ensures Knows(s0, t, g)
  {
    hide Shrunk, IsIdle, IsAlive;
  }

  lemma OthersKeepKnowledge(s0: State, s: State, a: Action, g: nat)
    requires Inv(s0) && Inv(s) && Enabled(s, a) && Knows(s0, s, g) && !IsStepOf(a, g)
    ensures Knows(s0, Apply(s, a), g)
  {
    KnowledgeUnderLock(s0, s, g);
    hide *;
    OthersAreLockFree(s, a, g);
    OthersKeepStage(s, a, g);
    ShrunkByLockFree(s0, s, a);
    KnowledgeCarries(s0, s, Apply(s, a), g);
  }

  lemma KnowledgeUnderLock(s0: State, s: State, g: nat)
    requires Inv(s) && Knows(s0, s, g)
    ensures Locking(s) && g in s.gets && HoldsLock(s.gets[g].stage) && Shrunk(s0, s)
  {
  }

  /** One test of retain. */
  lemma RetainOneEffect(s: State, g: nat, k: Key)
    requires Inv(s) && Enabled(s, RetainOne(g, k))
    ensures var t := Apply(s, RetainOne(g, k));
            && t.entries == (if IsDead(s, k) then s.entries - {k} else s.entries)
            && t.alive == s.alive && t.nextConn == s.nextConn
            && g in t.gets && t.gets[g].stage == Retaining(s.gets[g].stage.seen + {k})
            && (forall l :: l in t.entries ==> (IsIdle(t, l) <==> IsIdle(s, l)))
            && t.slots.permits == s.slots.permits + (if IsDead(s, k) && IsIdle(s, k) then 1 else 0)
  {
    var t := Apply(s, RetainOne(g, k));
    if IsDead(s, k) {
      RemoveEntryIdle(s, k);
      RemoveEntryEntries(s, k);
      hide Inv, RemoveEntry;
      assert forall l :: IsIdle(t, l) <==> IsIdle(RemoveEntry(s, k), l);
      hide IsIdle;
    }
  }

  lemma RetainShrinks(s0: State, s: State, t: State, k: Key)
    requires Shrunk(s0, s) && k in s.entries && t.alive == s.alive && t.nextConn == s.nextConn
    requires t.entries == if IsDead(s, k) then s.entries - {k} else s.entries
    requires forall l :: l in t.entries ==> (IsIdle(t, l) <==> IsIdle(s, l))
    ensures Shrunk(s0, t)
  {
    hide IsIdle;
  }

  lemma RetainSurvivors(s0: State, s: State, t: State, seen: set<Key>, k: Key)
    requires Shrunk(s0, s) && SurvivorsAlive(s0, s, seen) && k in s.entries
    requires t.entries == if IsDead(s, k) then s.entries - {k} else s.entries
    requires forall l :: l in s0.entries ==> s0.entries[l].lease.conn < s0.nextConn
    ensures SurvivorsAlive(s0, t, seen + {k})
  {
    hide IsIdle;
  }

  lemma RetainKeepsKnowledge(s0: State, s: State, g: nat, k: Key)
    requires Inv(s0) && Inv(s) && Enabled(s, RetainOne(g, k)) && Knows(s0, s, g)
    ensures Knows(s0, Apply(s, RetainOne(g, k)), g)
  {
    ConnsNumbered(s0);
    RetainOneEffect(s, g, k);
    hide Inv, Apply, IsIdle, IsDead, Shrunk, SurvivorsAlive;
    var t := Apply(s, RetainOne(g, k));
    RetainShrinks(s0, s, t, k);
    RetainSurvivors(s0, s, t, s.gets[g].stage.seen, k);
  }

  lemma ScanKeepsKnowledge(s0: State, s: State, g: nat, k: Key)
    requires Enabled(s, ScanOne(g, k)) && Knows(s0, s, g)
    ensures Knows(s0, Apply(s, ScanOne(g, k)), g)
  {
    var t := Apply(s, ScanOne(g, k));
    assert forall l :: IsIdle(t, l) <==> IsIdle(s, l);
    hide IsIdle, Enabled;
  }

  lemma KnowledgeStep(s0: State, s: State, a: Action, g: nat)
    requires Inv(s0) && Inv(s) && Enabled(s, a) && Knows(s0, s, g) && a != Pick(g)
    ensures Knows(s0, Apply(s, a), g)
  {
    if !IsStepOf(a, g) {
      OthersKeepKnowledge(s0, s, a, g);
    } else if a.RetainOne? {
      RetainKeepsKnowledge(s0, s, g, a.key);
    } else if a.ScanOne? {
      ScanKeepsKnowledge(s0, s, g, a.key);
    } else {
      assert a == StartScan(g);
      StartKeepsKnowledge(s0, s, g);
    }
  }

  lemma StartKeepsKnowledge(s0: State, s: State, g: nat)
    requires Enabled(s, StartScan(g)) && Knows(s0, s, g)
    ensures Knows(s0, Apply(s, StartScan(g)), g)
  {
    var t := Apply(s, StartScan(g));
    assert forall l :: IsIdle(t, l) <==> IsIdle(s, l);
    hide IsIdle;
  }

  lemma {:induction false} KnowledgeLasts(
    max: nat, states: seq<State>, actions: seq<Action>, i: nat, j: nat, g: nat)
    requires Run(max, states, actions) && i < j < |states| && actions[i] == Lock(g)
    requires forall m :: i < m < j ==> actions[m] != Pick(g)
    ensures Knows(states[i], states[j], g)
    decreases j
  {
    ReachableInv(max, states, actions, i);
    ReachableInv(max, states, actions, j - 1);
    StepAt(max, states, actions, j - 1);
    if i + 1 < j {
      hide *;
      KnowledgeLasts(max, states, actions, i, j - 1, g);
      KnowledgeStep(states[i], states[j - 1], actions[j - 1], g);
    } else {
      hide *;
      KnowsAtStart(states[i], g);
    }
  }

  // ----- the victim -----

  /**
   Whatever happens between the tests of one section, from taking the lock at step `i` to taking the
   victim out at step `j`: the victim was alive at the start and is unborrowed at the end, and the last
   call that returned it did so no later than the last call that returned any remaining entry that was
   unborrowed at the start.  Every entry that goes besides it is dead, and the others are unchanged.
   */
  lemma EvictionIsSafeAndExact(
    max: nat, states: seq<State>, actions: seq<Action>, i: nat, j: nat, g: nat, v: Key)
    requires Run(max, states, actions) && i < j < |actions| && actions[i] == Lock(g) && actions[j] == Pick(g)
    requires forall m :: i < m < j ==> actions[m] != Pick(g)
    requires g in states[j].gets && states[j].gets[g].stage.Scanning? && states[j].gets[g].stage.best == Some(v)
    ensures v in states[j].entries && IsAlive(states[i], v) && !IsBorrowed(states[j], v)
    ensures forall k :: k in states[j].entries && k in states[i].entries && !IsBorrowed(states[i], k) ==>
              states[j].entries[v].lastUsed <= states[j].entries[k].lastUsed
    ensures forall k, m: nat, n: nat ::
              && k in states[j].entries && k in states[i].entries && !IsBorrowed(states[i], k)
              && IsLastReturn(states, actions, j, v, m) && IsLastReturn(states, actions, j, k, n)
              ==> TimeOf(actions[m]) <= TimeOf(actions[n])
    ensures forall k :: k in states[i].entries && k !in states[j].entries ==>
              states[i].entries[k].lease.conn !in states[j].alive
    ensures forall k :: k in states[j].entries ==> k in states[i].entries && IsAlive(states[i], k)
                                                   && states[j].entries[k] == states[i].entries[k]
    ensures states[j + 1].entries == states[j].entries - {v}
    ensures g in states[j + 1].gets && states[j + 1].gets[g].stage == Picked(Some(states[j].entries[v].lease))
  {
    KnowledgeLasts(max, states, actions, i, j, g);
    PickedAt(max, states, actions, j, g);
    ReachableInv(max, states, actions, i);
    ReachableInv(max, states, actions, j);
    VictimIsOldest(states[i], states[j], g, v);
    PickEffect(states[j], states[j + 1], g, v);
    hide *;
    forall k, m: nat, n: nat
      | && k in states[j].entries && k in states[i].entries && !IsBorrowed(states[i], k)
        && IsLastReturn(states, actions, j, v, m) && IsLastReturn(states, actions, j, k, n)
      ensures TimeOf(actions[m]) <= TimeOf(actions[n])
    {
      LastReturnTime(max, states, actions, j, v, m);
      LastReturnTime(max, states, actions, j, k, n);
    }
  }

  lemma PickedAt(max: nat, states: seq<State>, actions: seq<Action>, j: nat, g: nat)
    requires Run(max, states, actions) && j < |actions| && actions[j] == Pick(g)
    ensures Step(states[j], Pick(g), states[j + 1])
  {
  }

  lemma PickEffect(s: State, t: State, g: nat, v: Key)
    requires Step(s, Pick(g), t) && v in s.entries && s.gets[g].stage.best == Some(v)
    ensures t.entries == s.entries - {v}
    ensures g in t.gets && t.gets[g].stage == Picked(Some(s.entries[v].lease))
  {
  }

  lemma VictimIsOldest(s0: State, s: State, g: nat, v: Key)
    requires Inv(s0) && Inv(s) && Knows(s0, s, g) && Enabled(s, Pick(g)) && s.gets[g].stage.best == Some(v)
    ensures v in s.entries && IsAlive(s0, v) && !IsBorrowed(s, v)
    ensures forall k :: k in s.entries && k in s0.entries && !IsBorrowed(s0, k) ==>
              s.entries[v].lastUsed <= s.entries[k].lastUsed
    ensures forall k :: k in s0.entries && k !in s.entries ==> s0.entries[k].lease.conn !in s.alive
    ensures forall k :: k in s.entries ==> k in s0.entries && IsAlive(s0, k) && s.entries[k] == s0.entries[k]
  {
    IdleMeansUnborrowed(s, v);
    hide Accounted, IsBorrowed, IsIdle;
    forall k | k in s.entries && k in s0.entries && !IsBorrowed(s0, k)
      ensures s.entries[v].lastUsed <= s.entries[k].lastUsed
    {
      IdleMeansUnborrowed(s0, k);
    }
  }

  /** Without a victim every remaining entry was borrowed when the section began. */
  lemma NoVictimMeansBorrowed(
    max: nat, states: seq<State>, actions: seq<Action>, i: nat, j: nat, g: nat)
    requires Run(max, states, actions) && i < j < |actions| && actions[i] == Lock(g) && actions[j] == Pick(g)
    requires forall m :: i < m < j ==> actions[m] != Pick(g)
    requires g in states[j].gets && states[j].gets[g].stage.Scanning? && states[j].gets[g].stage.best == None
    ensures forall k :: k in states[j].entries ==> k in states[i].entries && IsBorrowed(states[i], k)
  {
    KnowledgeLasts(max, states, actions, i, j, g);
    PickedAt(max, states, actions, j, g);
    ReachableInv(max, states, actions, i);
    var s0, s := states[i], states[j];
    hide Run, Accounted, IsBorrowed, IsIdle;
    forall k | k in s.entries ensures k in s0.entries && IsBorrowed(s0, k) {
      IdleMeansUnborrowed(s0, k);
    }
  }
}
