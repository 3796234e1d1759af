/** When an entry was last used: the time of the last call that returned its lease. */
module PoolRecency {
  import opened Wrappers
  import opened PoolProtocol
  import opened PoolOwnership
  import opened PoolInvariant
  import opened PoolRefinement

  /** The clock reading of a step that looks the key up. */
  function TimeOf(a: Action): nat {
    match a
    case LookUp(_, now, _) => now
    case LookAgain(_, now, _) => now
    case Publish(_, now, _) => now
    case _ => 0
  }

  /** Whoever newly holds a lease has cloned one, or a call of `get` has returned it. */
  lemma ResultsAreReturns(s: State, a: Action, b: nat)
    requires Enabled(s, a) && b in Apply(s, a).leases && b !in s.leases && !a.CloneLease?
    ensures a.LookUp? || a.LookAgain? || a.Publish?
    ensures a.g in s.gets && Returns(s, a, s.gets[a.g].key, Apply(s, a).leases[b])
  {
    hide CloneArc, DropArc, NewArc, Better;
  }

  /** A call that returns a lease leaves the key's entry with this lease and the time of the call. */
  lemma ReturnTouches(s: State, a: Action, key: Key, lease: Lease)
    requires Returns(s, a, key, lease)
    ensures a.LookUp? || a.LookAgain? || a.Publish?
    ensures key in Apply(s, a).entries && Apply(s, a).entries[key].lease == lease
    ensures Apply(s, a).entries[key].lastUsed
            == match a
               case LookUp(_, now, _) => now
               case LookAgain(_, now, _) => now
               case Publish(_, now, _) => now
  {
    hide CloneArc, DropArc, NewArc;
  }

  ghost predicate ReturnsKey(s: State, a: Action, key: Key) {
    Enabled(s, a) && EventOf(s, a).Returned? && EventOf(s, a).key == key
  }

  /** No other step changes an entry that stays, its time included, or adds one. */
  lemma OthersDoNotTouch(s: State, a: Action, key: Key)
    requires Enabled(s, a) && !ReturnsKey(s, a, key) && key in Apply(s, a).entries
    ensures key in s.entries && Apply(s, a).entries[key] == s.entries[key]
  {
    if IsLockFree(a) {
      LockFreeStep(s, a);
    } else {
      LockedDoNotTouch(s, a, key);
    }
    hide *;
  }

  lemma LockedDoNotTouch(s: State, a: Action, key: Key)
    requires Enabled(s, a) && !IsLockFree(a) && !ReturnsKey(s, a, key) && key in Apply(s, a).entries
    ensures key in s.entries && Apply(s, a).entries[key] == s.entries[key]
  {
    hide CloneArc, DropArc, NewArc, Better;
  }

  /** Step `m` is the last before state `j` that returns a lease for `key`. */
  ghost predicate IsLastReturn(states: seq<State>, actions: seq<Action>, j: nat, key: Key, m: nat) {
    && |states| == |actions| + 1 && m < j < |states| && ReturnsKey(states[m], actions[m], key)
    && forall i :: m < i < j ==> !ReturnsKey(states[i], actions[i], key)
  }

  lemma ReturnsKeyAt(max: nat, states: seq<State>, actions: seq<Action>, i: nat, key: Key)
    requires Run(max, states, actions) && i < |actions| && key in states[i + 1].entries
    ensures if ReturnsKey(states[i], actions[i], key)
            then actions[i].LookUp? || actions[i].LookAgain? || actions[i].Publish?
            else key in states[i].entries && states[i + 1].entries[key] == states[i].entries[key]
    ensures ReturnsKey(states[i], actions[i], key) ==> states[i + 1].entries[key].lastUsed == TimeOf(actions[i])
  {
    StepAt(max, states, actions, i);
    if ReturnsKey(states[i], actions[i], key) {
      var lease := EventOf(states[i], actions[i]).lease;
      ReturnTouches(states[i], actions[i], key, lease);
    } else {
      hide *;
      OthersDoNotTouch(states[i], actions[i], key);
    }
  }

  /** In every run an entry's time is that of the last call that returned a lease for its key. */
  lemma {:induction false} LastUsedIsLastReturn(
    max: nat, states: seq<State>, actions: seq<Action>, j: nat, key: Key) returns (m: nat)
    requires Run(max, states, actions) && j < |states| && key in states[j].entries
    ensures IsLastReturn(states, actions, j, key, m)
    ensures actions[m].LookUp? || actions[m].LookAgain? || actions[m].Publish?
    ensures states[j].entries[key].lastUsed == TimeOf(actions[m])
    decreases j
  {
    assert |states| == |actions| + 1 && j > 0;
    ReturnsKeyAt(max, states, actions, j - 1, key);
    if ReturnsKey(states[j - 1], actions[j - 1], key) {
      m := j - 1;
    } else {
      hide Run, ReturnsKey;
      m := LastUsedIsLastReturn(max, states, actions, j - 1, key);
    }
  }

  lemma LastReturnUnique(states: seq<State>, actions: seq<Action>, j: nat, key: Key, m: nat, n: nat)
    requires IsLastReturn(states, actions, j, key, m) && IsLastReturn(states, actions, j, key, n)
    ensures m == n
  {
    hide ReturnsKey;
  }

  lemma LastReturnTime(max: nat, states: seq<State>, actions: seq<Action>, j: nat, key: Key, m: nat)
    requires Run(max, states, actions) && j < |states| && key in states[j].entries
    requires IsLastReturn(states, actions, j, key, m)
    ensures m < |actions| && states[j].entries[key].lastUsed == TimeOf(actions[m])
  {
    var n := LastUsedIsLastReturn(max, states, actions, j, key);
    LastReturnUnique(states, actions, j, key, m, n);
    hide ReturnsKey, Run;
  }
}
