/** Runs that show which plausible claims about the pool do not hold. */
module PoolWitnesses {
  import opened Wrappers
  import opened PoolProtocol
  import opened PoolRefinement

  ghost predicate Reachable(max: nat, s: State) {
    exists states, actions :: Run(max, states, actions) && states[|actions|] == s
  }

  lemma Initially(max: nat)
    ensures Reachable(max, Empty(max))
  {
    assert Run(max, [Empty(max)], []);
  }

  lemma Then(max: nat, s: State, a: Action, t: State)
    requires Reachable(max, s) && Step(s, a, t)
    ensures Reachable(max, t)
  {
    hide Step;
    var states, actions :| Run(max, states, actions) && states[|actions|] == s;
    var states', actions' := states + [t], actions + [a];
    forall i | 0 <= i < |actions'| ensures Step(states'[i], actions'[i], states'[i + 1]) {
      if i < |actions| {
        assert Step(states[i], actions[i], states[i + 1]);
      }
    }
    assert Run(max, states', actions') && states'[|actions'|] == t;
  }

  // ----- a pool of one slot, holding one unborrowed live entry -----

  const ONE_TAKEN := Slots(1, 0, map[0 := 1], 1)

  function OneIdle(a: Key): State {
    State(ONE_TAKEN, map[a := CachedLease(Lease(0, 0), 0)], map[], map[], {0}, 1)
  }

  function OneConnecting(a: Key): State {
    State(ONE_TAKEN, map[], map[1 := Get(a, Connecting(0))], map[], {}, 0)
  }

  lemma OneConnectingReachable(a: Key)
    ensures Reachable(1, OneConnecting(a))
  {
    hide Reachable;
    var s0 := Empty(1);
    Initially(1);
    var s1 := s0.(gets := map[1 := Get(a, Entering)]);
    Then(1, s0, Call(1, a), s1);
    var s2 := s0.(gets := map[1 := Get(a, Missed)]);
    Then(1, s1, LookUp(1, 0, 0), s2);
    var s3 := s0.(slots := ONE_TAKEN, gets := map[1 := Get(a, Reserved(0))]);
    Then(1, s2, TryAcquire(1), s3);
    Then(1, s3, LookAgain(1, 0, 0), OneConnecting(a));
  }

  lemma OneIdleReachable(a: Key)
    ensures Reachable(1, OneIdle(a))
  {
    hide Reachable;
    OneConnectingReachable(a);
    var s4 := OneConnecting(a);
    var s5 := s4.(gets := map[1 := Get(a, Connected(Lease(0, 0)))], alive := {0}, nextConn := 1);
    Then(1, s4, Connect(1), s5);
    var s6 := OneIdle(a).(slots := Slots(1, 0, map[0 := 2], 1), leases := map[0 := Lease(0, 0)]);
    Then(1, s5, Publish(1, 0, 0), s6);
    Then(1, s6, DropLease(0), OneIdle(a));
  }

  function Contended(a: Key, second: Get, third: Get): State {
    OneIdle(a).(gets := map[2 := second, 3 := third])
  }

  lemma ContendedReachable(a: Key, b: Key, c: Key)
    requires a != b && a != c
    ensures Reachable(1, Contended(a, Get(b, Full), Get(c, Missed)))
  {
    hide Reachable;
    OneIdleReachable(a);
    var s0 := OneIdle(a);
    var s1 := s0.(gets := map[2 := Get(b, Entering)]);
    Then(1, s0, Call(2, b), s1);
    var s2 := s0.(gets := map[2 := Get(b, Missed)]);
    Then(1, s1, LookUp(2, 0, 0), s2);
    var s3 := s0.(gets := map[2 := Get(b, Full)]);
    Then(1, s2, TryAcquire(2), s3);
    Then(1, s3, Call(3, c), Contended(a, Get(b, Full), Get(c, Entering)));
    Then(1, Contended(a, Get(b, Full), Get(c, Entering)), LookUp(3, 0, 0), Contended(a, Get(b, Full), Get(c, Missed)));
  }

  ghost predicate IsPath(states: seq<State>, actions: seq<Action>) {
    |states| == |actions| + 1 && forall i :: 0 <= i < |actions| ==> Step(states[i], actions[i], states[i + 1])
  }

  /** Call 2 evicts `a`; call 3 is about to try the semaphore. */
  function EvictingState(a: Key, b: Key, c: Key, stage: Stage): State {
    Contended(a, Get(b, stage), Get(c, Missed))
  }

  function PickedState(a: Key, b: Key, c: Key): State {
    EvictingState(a, b, c, Picked(Some(Lease(0, 0)))).(entries := map[])
  }

  function DroppedState(a: Key, b: Key, c: Key): State {
    EvictingState(a, b, c, Retrying).(entries := map[], slots := Slots(1, 1, map[], 1))
  }

  function StolenState(a: Key, b: Key, c: Key): State {
    Contended(a, Get(b, Retrying), Get(c, Reserved(1))).(entries := map[], slots := Slots(1, 0, map[1 := 1], 2))
  }

  lemma RetainSteps(a: Key, b: Key, c: Key)
    requires a != b && a != c
    ensures Step(EvictingState(a, b, c, Full), Lock(2), EvictingState(a, b, c, Retaining({})))
    ensures Step(EvictingState(a, b, c, Retaining({a})), StartScan(2), EvictingState(a, b, c, Scanning({}, None)))
  {
  }

  lemma RetainOneStep(a: Key, b: Key, c: Key)
    ensures Step(EvictingState(a, b, c, Retaining({})), RetainOne(2, a), EvictingState(a, b, c, Retaining({a})))
  {
    var none: set<Key> := {};
    assert none + {a} == {a};
  }

  lemma ScanOneStep(a: Key, b: Key, c: Key)
    ensures Step(EvictingState(a, b, c, Scanning({}, None)), ScanOne(2, a), EvictingState(a, b, c, Scanning({a}, Some(a))))
  {
    var none: set<Key> := {};
    assert none + {a} == {a};
  }

  lemma PickSteps(a: Key, b: Key, c: Key)
    ensures Step(EvictingState(a, b, c, Scanning({a}, Some(a))), Pick(2), PickedState(a, b, c))
    ensures Step(PickedState(a, b, c), DropEvicted(2), DroppedState(a, b, c))
  {
  }

  lemma StolenSteps(a: Key, b: Key, c: Key)
    ensures Step(DroppedState(a, b, c), TryAcquire(3), StolenState(a, b, c))
    ensures Step(StolenState(a, b, c), RetryAcquire(2), EndGet(StolenState(a, b, c), 2))
  {
  }

  lemma ScanPath(a: Key, b: Key, c: Key) returns (path: seq<State>, actions: seq<Action>)
    requires a != b && a != c
    ensures IsPath(path, actions) && |path| == 5
    ensures path[0] == EvictingState(a, b, c, Full) && path[4] == EvictingState(a, b, c, Scanning({a}, Some(a)))
    ensures actions == [Lock(2), RetainOne(2, a), StartScan(2), ScanOne(2, a)]
  {
    RetainSteps(a, b, c);
    RetainOneStep(a, b, c);
    ScanOneStep(a, b, c);
    hide *;
    path, actions := [EvictingState(a, b, c, Full)], [];
    assert IsPath(path, actions) by { PathOfOne(EvictingState(a, b, c, Full)); }
    path, actions := PathThen(path, actions, Lock(2), EvictingState(a, b, c, Retaining({})));
    path, actions := PathThen(path, actions, RetainOne(2, a), EvictingState(a, b, c, Retaining({a})));
    path, actions := PathThen(path, actions, StartScan(2), EvictingState(a, b, c, Scanning({}, None)));
    path, actions := PathThen(path, actions, ScanOne(2, a), EvictingState(a, b, c, Scanning({a}, Some(a))));
  }

  /**
   With other calls in between, a call can fail with `Overloaded` although an unborrowed live entry
   was there when it looked: the permit it frees by evicting that entry goes to somebody else.
   */
  lemma FreedPermitCanBeStolen(a: Key, b: Key, c: Key) returns (path: seq<State>, actions: seq<Action>)
    requires a != b && a != c
    ensures IsPath(path, actions) && |path| == 9
    ensures Reachable(1, path[0]) && IsIdle(path[0], a) && IsAlive(path[0], a)
    ensures actions == [Lock(2), RetainOne(2, a), StartScan(2), ScanOne(2, a)]
                       + [Pick(2), DropEvicted(2), TryAcquire(3), RetryAcquire(2)]
    ensures 2 in path[7].gets && 2 !in path[8].gets && path[8].leases == map[]
  {
    ContendedReachable(a, b, c);
    path, actions := ScanPath(a, b, c);
    PickSteps(a, b, c);
    StolenSteps(a, b, c);
    assert IsIdle(path[0], a) && IsAlive(path[0], a);
    var stolen := StolenState(a, b, c);
    assert 2 in stolen.gets && 2 !in EndGet(stolen, 2).gets && EndGet(stolen, 2).leases == map[];
    hide *;
    path, actions := PathThen(path, actions, Pick(2), PickedState(a, b, c));
    path, actions := PathThen(path, actions, DropEvicted(2), DroppedState(a, b, c));
    path, actions := PathThen(path, actions, TryAcquire(3), stolen);
    path, actions := PathThen(path, actions, RetryAcquire(2), EndGet(stolen, 2));
  }

  lemma PathOfOne(s: State)
    ensures IsPath([s], [])
  {
  }

  lemma PathThen(states: seq<State>, actions: seq<Action>, a: Action, t: State)
    returns (more: seq<State>, acts: seq<Action>)
    requires IsPath(states, actions) && Step(states[|actions|], a, t)
    ensures IsPath(more, acts) && more == states + [t] && acts == actions + [a]
  {
    hide Step;
    more, acts := states + [t], actions + [a];
  }

  // ----- a session that fails while another has taken its place -----

  const TWO_SLOTS := Slots(2, 1, map[0 := 1], 1)

  /** Borrower 0 still holds dead session 0; call 2 is about to do `stage` for the same key. */
  function Replacing(a: Key, stage: Stage): State {
    State(TWO_SLOTS, map[], map[2 := Get(a, stage)], map[0 := Lease(0, 0)], {}, 1)
  }

  lemma FirstSession(a: Key)
    ensures Reachable(2, State(TWO_SLOTS, map[], map[1 := Get(a, Connected(Lease(0, 0)))], map[], {0}, 1))
  {
    hide Reachable;
    var s0 := Empty(2);
    Initially(2);
    var s1 := s0.(gets := map[1 := Get(a, Entering)]);
    Then(2, s0, Call(1, a), s1);
    var s2 := s0.(gets := map[1 := Get(a, Missed)]);
    Then(2, s1, LookUp(1, 0, 0), s2);
    var s3 := State(TWO_SLOTS, map[], map[1 := Get(a, Reserved(0))], map[], {}, 0);
    Then(2, s2, TryAcquire(1), s3);
    var s4 := s3.(gets := map[1 := Get(a, Connecting(0))]);
    Then(2, s3, LookAgain(1, 0, 0), s4);
    Then(2, s4, Connect(1), State(TWO_SLOTS, map[], map[1 := Get(a, Connected(Lease(0, 0)))], map[], {0}, 1));
  }

  lemma ReplacingReachable(a: Key)
    ensures Reachable(2, Replacing(a, Missed))
  {
    hide Reachable;
    FirstSession(a);
    var s5 := State(TWO_SLOTS, map[], map[1 := Get(a, Connected(Lease(0, 0)))], map[], {0}, 1);
    var s6 := State(Slots(2, 1, map[0 := 2], 1), map[a := CachedLease(Lease(0, 0), 0)], map[], map[0 := Lease(0, 0)], {0}, 1);
    Then(2, s5, Publish(1, 0, 0), s6);
    var s7 := s6.(alive := {});
    Then(2, s6, Die(0), s7);
    var s8 := s7.(gets := map[2 := Get(a, Entering)]);
    Then(2, s7, Call(2, a), s8);
    Then(2, s8, LookUp(2, 0, 1), Replacing(a, Missed));
  }

  /** Borrower 0's session is dead and session 1, live, is cached under its key and lent to borrower 1. */
  function Replaced(a: Key): State {
    State(Slots(2, 0, map[0 := 1, 1 := 2], 2), map[a := CachedLease(Lease(1, 1), 0)], map[],
          map[0 := Lease(0, 0), 1 := Lease(1, 1)], {1}, 2)
  }

  lemma ReplacementConnecting(a: Key)
    ensures Reachable(2, Replacing(a, Connecting(1)).(slots := Slots(2, 0, map[0 := 1, 1 := 1], 2)))
  {
    hide Reachable;
    ReplacingReachable(a);
    var s1 := Replacing(a, Reserved(1)).(slots := Slots(2, 0, map[0 := 1, 1 := 1], 2));
    Then(2, Replacing(a, Missed), TryAcquire(2), s1);
    Then(2, s1, LookAgain(2, 0, 1), Replacing(a, Connecting(1)).(slots := s1.slots));
  }

  lemma ReplacedReachable(a: Key)
    ensures Reachable(2, Replaced(a))
  {
    hide Reachable;
    ReplacementConnecting(a);
    var s2 := Replacing(a, Connecting(1)).(slots := Slots(2, 0, map[0 := 1, 1 := 1], 2));
    var s3 := Replacing(a, Connected(Lease(1, 1))).(slots := s2.slots, alive := {1}, nextConn := 2);
    Then(2, s2, Connect(2), s3);
    Then(2, s3, Publish(2, 0, 1), Replaced(a));
  }

  /** Invalidating after the old session's failure throws the live new session out of the cache. */
  lemma InvalidateCanTakeALiveSession(a: Key)
    ensures Reachable(2, Replaced(a)) && IsAlive(Replaced(a), a)
    ensures Replaced(a).leases[0].conn !in Replaced(a).alive
    ensures Replaced(a).entries[a].lease.conn != Replaced(a).leases[0].conn
    ensures a !in Apply(Replaced(a), Invalidate(a)).entries
  {
    ReplacedReachable(a);
  }

  /** A connection can die between the handshake and the third look-up: the returned lease is then dead. */
  lemma ReturnedLeaseCanBeDead(a: Key) returns (s: State)
    ensures Reachable(1, s) && Returns(s, Publish(1, 0, 0), a, Lease(0, 0)) && 0 !in s.alive
  {
    hide Reachable;
    OneConnectingReachable(a);
    var s4 := OneConnecting(a);
    var s5 := s4.(gets := map[1 := Get(a, Connected(Lease(0, 0)))], alive := {0}, nextConn := 1);
    Then(1, s4, Connect(1), s5);
    s := s5.(alive := {});
    Then(1, s5, Die(0), s);
  }
}
