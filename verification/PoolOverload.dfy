/** When an undisturbed acquire_slot fails. */
module PoolOverload {
  import opened Wrappers
  import opened PoolProtocol
  import opened PoolOwnership
  import opened PoolInvariant
  import opened PoolRefinement
  import opened PoolCapacity
  import opened PoolEviction

  /** From its first try call `g` alone takes the steps of acquire_slot. */
  ghost predicate Alone(s: State, g: nat, states: seq<State>, actions: seq<Action>) {
    && |states| == |actions| + 1 && states[0] == s
    && g in s.gets && s.gets[g].stage.Missed?
    && forall i :: 0 <= i < |actions| ==>
         Step(states[i], actions[i], states[i + 1]) && OfAcquire(actions[i]) && actions[i].g == g
  }

  /** acquire_slot is over: the call has a slot, or has failed with `Overloaded`. */
  predicate IsOver(s: State, g: nat) {
    g !in s.gets || s.gets[g].stage.Reserved?
  }

  lemma AloneExtends(s: State, g: nat, states: seq<State>, actions: seq<Action>, a: Action, t: State)
    requires Alone(s, g, states, actions) && Step(states[|actions|], a, t) && OfAcquire(a) && a.g == g
    ensures Alone(s, g, states + [t], actions + [a])
  {
    hide Step;
    forall i | 0 <= i < |actions| + 1
      ensures Step((states + [t])[i], (actions + [a])[i], (states + [t])[i + 1])
              && OfAcquire((actions + [a])[i]) && (actions + [a])[i].g == g
    {
      if i < |actions| {
        assert Step(states[i], actions[i], states[i + 1]) && OfAcquire(actions[i]) && actions[i].g == g;
      }
    }
  }

  lemma AloneShape(s: State, g: nat, states: seq<State>, actions: seq<Action>)
    requires Alone(s, g, states, actions)
    ensures |states| == |actions| + 1
  {
  }

  // ----- what has become of the state it began in -----

  ghost predicate SomeIdle(s: State) {
    exists k :: k in s.entries && IsIdle(s, k)
  }

  /** The remaining entries are as they were, and a permit is free exactly if an idle one has gone. */
  ghost predicate Reduced(s0: State, s: State) {
    && s0.slots.permits == 0
    && (forall k :: k in s.entries ==> k in s0.entries && (IsIdle(s, k) <==> IsIdle(s0, k)))
    && (s.slots.permits > 0 <==> exists k :: k in s0.entries && k !in s.entries && IsIdle(s0, k))
  }

  /** A free permit, or an evicted lease, stands for an idle entry. */
  ghost predicate Found(s0: State, s: State, evicted: bool) {
    s0.slots.permits == 0 && (s.slots.permits > 0 || evicted <==> SomeIdle(s0))
  }

  ghost predicate Candidate(s: State, seen: set<Key>, best: Option<Key>) {
    && (best.Some? ==> best.value in s.entries && IsIdle(s, best.value))
    && (best.None? ==> forall k :: k in seen && k in s.entries ==> !IsIdle(s, k))
  }

  ghost predicate Tried(s0: State, s: State, g: nat) {
    if g !in s.gets then s0.slots.permits == 0 && !SomeIdle(s0)
    else
      match s.gets[g].stage
      case Missed => s == s0
      case Full => s0.slots.permits == 0 && s.slots == s0.slots && s.entries == s0.entries
      case Retaining(_) => Reduced(s0, s)
      case Scanning(seen, best) => Reduced(s0, s) && Candidate(s, seen, best)
      case Picked(evicted) => Found(s0, s, evicted.Some?)
      case Retrying => Found(s0, s, false)
      case Reserved(_) => s0.slots.permits > 0 || SomeIdle(s0)
      case _ => false
  }

  lemma StageStep(s0: State, s: State, a: Action, g: nat)
    requires Enabled(s, a) && (a.TryAcquire? || a.Lock? || a.StartScan? || a.RetryAcquire?) && a.g == g
    requires Tried(s0, s, g)
    ensures Tried(s0, Apply(s, a), g)
  {
    var t := Apply(s, a);
    if a.Lock? || a.StartScan? {
      assert t.slots == s.slots && t.entries == s.entries;
      assert forall k :: IsIdle(t, k) <==> IsIdle(s, k);
      if a.Lock? {
        assert forall k :: IsIdle(s, k) <==> IsIdle(s0, k);
      }
    }
    hide IsIdle;
  }

  lemma RetainStep(s0: State, s: State, g: nat, k: Key)
    requires Inv(s) && Enabled(s, RetainOne(g, k)) && Reduced(s0, s)
    ensures Tried(s0, Apply(s, RetainOne(g, k)), g)
  {
    RetainOneEffect(s, g, k);
    hide Inv, Apply, IsIdle, IsDead;
    var t := Apply(s, RetainOne(g, k));
    assert k in s0.entries;
    assert forall l :: l in s0.entries && l !in t.entries ==> l == k || l !in s.entries;
  }

  lemma ScanStep(s0: State, s: State, g: nat, k: Key)
    requires Enabled(s, ScanOne(g, k)) && Tried(s0, s, g)
    ensures Tried(s0, Apply(s, ScanOne(g, k)), g)
  {
    var t := Apply(s, ScanOne(g, k));
    assert t.slots == s.slots && t.entries == s.entries;
    assert forall l :: IsIdle(t, l) <==> IsIdle(s, l);
    hide IsIdle;
  }

  lemma PickStep(s0: State, s: State, g: nat)
    requires Enabled(s, Pick(g)) && Tried(s0, s, g)
    ensures Tried(s0, Apply(s, Pick(g)), g)
  {
    hide IsIdle;
    var t := Apply(s, Pick(g));
    assert t.slots == s.slots;
    if k :| k in s0.entries && IsIdle(s0, k) {
      assert k !in s.entries || k in s.gets[g].stage.seen;
    }
  }

  lemma DropStep(s0: State, s: State, g: nat)
    requires Inv(s) && Enabled(s, DropEvicted(g)) && Tried(s0, s, g)
    ensures Tried(s0, Apply(s, DropEvicted(g)), g)
  {
    DroppingEvictedFreesOne(s, g);
    hide Inv, SomeIdle;
  }

  lemma TriedStep(s0: State, s: State, a: Action, g: nat)
    requires Inv(s) && Enabled(s, a) && OfAcquire(a) && a.g == g && Tried(s0, s, g)
    ensures Tried(s0, Apply(s, a), g)
  {
    match a {
      case RetainOne(_, k) => RetainStep(s0, s, g, k);
      case ScanOne(_, k) => ScanStep(s0, s, g, k);
      case Pick(_) => PickStep(s0, s, g);
      case DropEvicted(_) => DropStep(s0, s, g);
      case _ => StageStep(s0, s, a, g);
    }
  }

  lemma AloneAt(s: State, g: nat, states: seq<State>, actions: seq<Action>, i: nat)
    requires Alone(s, g, states, actions) && i < |actions|
    ensures Step(states[i], actions[i], states[i + 1]) && OfAcquire(actions[i]) && actions[i].g == g
  {
  }

  lemma TriedAfter(s0: State, s: State, a: Action, g: nat, t: State)
    requires Inv(s) && Step(s, a, t) && OfAcquire(a) && a.g == g && Tried(s0, s, g)
    ensures Inv(t) && Tried(s0, t, g)
  {
    assert Enabled(s, a) && t == Apply(s, a);
    hide *;
    StepInv(s, a);
    TriedStep(s0, s, a, g);
  }

  lemma {:induction false} TriedLasts(s: State, g: nat, states: seq<State>, actions: seq<Action>, i: nat)
    requires Inv(s) && Alone(s, g, states, actions) && i < |states|
    ensures forall j :: 0 <= j <= i ==> Inv(states[j]) && Tried(s, states[j], g)
    decreases i
  {
    assert |states| == |actions| + 1;
    if i > 0 {
      AloneAt(s, g, states, actions, i - 1);
      hide *;
      TriedLasts(s, g, states, actions, i - 1);
      TriedAfter(s, states[i - 1], actions[i - 1], g, states[i]);
    } else {
      hide Inv, Step;
    }
  }

  /**
   Undisturbed, acquire_slot fails exactly when no permit is free and every cached entry, live or
   dead, is borrowed.
   */
  lemma OverloadedMeansExhausted(s: State, g: nat, states: seq<State>, actions: seq<Action>)
    requires Inv(s) && Alone(s, g, states, actions) && IsOver(states[|actions|], g)
    ensures g !in states[|actions|].gets
            <==> s.slots.permits == 0 && forall k :: k in s.entries ==> IsBorrowed(s, k)
  {
    AloneShape(s, g, states, actions);
    hide *;
    TriedLasts(s, g, states, actions, |actions|);
    TriedAtEnd(s, states[|actions|], g);
    NobodyIdle(s);
  }

  lemma TriedAtEnd(s0: State, s: State, g: nat)
    requires Tried(s0, s, g) && IsOver(s, g)
    ensures g !in s.gets <==> s0.slots.permits == 0 && !SomeIdle(s0)
  {
    hide SomeIdle;
  }

  lemma NobodyIdle(s: State)
    requires Inv(s)
    ensures !SomeIdle(s) <==> forall k :: k in s.entries ==> IsBorrowed(s, k)
  {
    hide Accounted, IsBorrowed, IsIdle;
    forall k | k in s.entries ensures IsIdle(s, k) <==> !IsBorrowed(s, k) {
      IdleMeansUnborrowed(s, k);
    }
  }
}
