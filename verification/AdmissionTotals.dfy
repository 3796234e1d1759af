/**
 The two limits multiply into a global one only as long as no stream task has outlived its connection's
 handler.
 */
module AdmissionTotals {
  import Supervisor
  import opened Permits
  import opened Admission

  // ----- the bound, and when it holds -----

  /** All stream tasks that have not ended, of whatever connection. */
  ghost function AllStreams(s: State): set<nat> {
    set task | task in Outstanding(s.group) && task in s.ledger.kinds && s.ledger.kinds[task].Stream?
  }

  /** The connections some of them belong to. */
  ghost function Parents(s: State): set<nat> {
    set task | task in AllStreams(s) :: s.ledger.kinds[task].conn
  }

  /** `tasks` are stream tasks of `parents`, at most `limit` of each. */
  ghost predicate Shared(kinds: map<nat, Kind>, tasks: set<nat>, parents: set<nat>, limit: nat) {
    && (forall task :: task in tasks ==> task in kinds && kinds[task].Stream? && kinds[task].conn in parents)
    && (forall conn :: conn in parents ==> |OfKind(kinds, tasks, Stream(conn))| <= limit)
  }

  /** The stream tasks of one connection, and the rest. */
  lemma WithoutParent(kinds: map<nat, Kind>, tasks: set<nat>, parents: set<nat>, limit: nat, conn: nat)
    requires Shared(kinds, tasks, parents, limit) && conn in parents
    ensures var fiber := OfKind(kinds, tasks, Stream(conn));
            && |fiber| <= limit && |tasks| == |fiber| + |tasks - fiber|
            && Shared(kinds, tasks - fiber, parents - {conn}, limit)
  {
    var fiber := OfKind(kinds, tasks, Stream(conn));
    assert tasks == fiber + (tasks - fiber);
    forall c | c in parents - {conn} ensures |OfKind(kinds, tasks - fiber, Stream(c))| <= limit {
      assert OfKind(kinds, tasks - fiber, Stream(c)) == OfKind(kinds, tasks, Stream(c));
    }
  }

  lemma {:induction false} FibersBound(kinds: map<nat, Kind>, tasks: set<nat>, parents: set<nat>, limit: nat)
    requires Shared(kinds, tasks, parents, limit)
    ensures |tasks| <= limit * |parents|
    decreases |parents|
  {
    if conn :| conn in parents {
      hide *;
      WithoutParent(kinds, tasks, parents, limit, conn);
      FibersBound(kinds, tasks - OfKind(kinds, tasks, Stream(conn)), parents - {conn}, limit);
      assert |parents| == |parents - {conn}| + 1;
      OneMore(limit, |parents - {conn}|);
    } else {
      assert tasks == {};
    }
  }

  lemma OneMore(k: nat, n: nat)
    ensures k * (n + 1) == k * n + k
  {
  }

  /** In every reachable state the stream tasks number at most the limit for each connection that has some. */
  lemma TotalStreams(maxConnections: nat, maxStreams: nat, states: seq<State>, actions: seq<Action>, i: nat)
    requires Run(maxConnections, maxStreams, states, actions) && i < |states|
    ensures |AllStreams(states[i])| <= maxStreams * |Parents(states[i])|
  {
    var s := states[i];
    forall conn | conn in Parents(s) ensures |OfKind(s.ledger.kinds, AllStreams(s), Stream(conn))| <= maxStreams {
      AdmissionBounds(maxConnections, maxStreams, states, actions, i, conn);
      assert OfKind(s.ledger.kinds, AllStreams(s), Stream(conn)) == StreamTasks(s, conn);
    }
    hide Run;
    assert Shared(s.ledger.kinds, AllStreams(s), Parents(s), maxStreams);
    FibersBound(s.ledger.kinds, AllStreams(s), Parents(s), maxStreams);
  }

  /** What lies outside `c` counts on top. */
  lemma OutsideCounts(k: nat, p: set<nat>, c: set<nat>, limit: nat)
    requires |c| <= limit
    ensures k * |p| <= k * (limit + |p - c|)
    ensures p <= c ==> k * |p| <= limit * k
  {
    assert p == p * c + (p - c) && c == p * c + (c - p);
    assert |p| == |p * c| + |p - c| && |c| == |p * c| + |c - p|;
    Scaled(k, |p|, limit + |p - c|);
    if p <= c {
      assert p - c == {};
      Scaled(k, |p|, limit);
    }
  }

  lemma Scaled(k: nat, a: nat, b: nat)
    requires a <= b
    ensures k * a <= k * b == b * k
  {
  }

  /**
   The global bound holds as long as every connection with a stream task still has its handler; each
   connection that has lost it can add its own limit once more.
   */
  lemma GlobalBound(maxConnections: nat, maxStreams: nat, states: seq<State>, actions: seq<Action>, i: nat)
    requires Run(maxConnections, maxStreams, states, actions) && i < |states|
    ensures Parents(states[i]) <= ConnectionTasks(states[i]) ==>
              |AllStreams(states[i])| <= maxConnections * maxStreams
    ensures |AllStreams(states[i])|
            <= maxStreams * (maxConnections + |Parents(states[i]) - ConnectionTasks(states[i])|)
  {
    hide *;
    TotalStreams(maxConnections, maxStreams, states, actions, i);
    AdmissionBounds(maxConnections, maxStreams, states, actions, i, 0);
    OutsideCounts(maxStreams, Parents(states[i]), ConnectionTasks(states[i]), maxConnections);
  }

  // ----- a run beyond it -----

  ghost predicate Reachable(s: State) {
    exists states, actions :: Run(1, 1, states, actions) && states[|actions|] == s
  }

  lemma Initially()
    ensures Reachable(Init(1, 1))
  {
    assert Run(1, 1, [Init(1, 1)], []);
  }

  lemma Then(s: State, a: Action, t: State)
    requires Reachable(s) && Step(s, a, t)
    ensures Reachable(t)
  {
    hide Step;
    var states, actions :| Run(1, 1, states, actions) && states[|actions|] == s;
    var states', actions' := states + [t], actions + [a];
    forall i | 0 <= i < |actions'| ensures Step(states'[i], actions'[i], states'[i + 1]) {
      if i < |actions| {
        assert Step(states[i], actions[i], states[i + 1]);
      }
    }
    assert Run(1, 1, states', actions') && states'[|actions'|] == t;
  }

  function Serving(tasks: set<nat>, live: set<nat>): Supervisor.State {
    Supervisor.INIT.(hasSender := true, actor := Supervisor.Serving, tasks := tasks, live := live, accepted := tasks)
  }

  function Spawning(tasks: set<nat>, live: set<nat>, task: nat): Supervisor.State {
    Serving(tasks, live).(queue := [Supervisor.Spawn(task)], accepted := tasks + {task})
  }

  /** The connection task `conn` is running and its handler has just taken its only stream permit. */
  function Admitting(tasks: set<nat>, live: set<nat>, kinds: map<nat, Kind>, closed: map<nat, nat>, conn: nat): State {
    State(Serving(tasks, live), Ledger(1, 1, kinds, 0, false, closed[conn := 0], {conn}))
  }

  /** From an idle listener: accept connection `conn`, run it, and let it take a stream permit. */
  lemma AcceptConnection(tasks: set<nat>, live: set<nat>, kinds: map<nat, Kind>, closed: map<nat, nat>, conn: nat)
    requires Reachable(State(Serving(tasks, live), Ledger(1, 1, kinds, 1, false, closed, {})))
    requires conn !in tasks && conn !in kinds && conn !in closed && live <= tasks
    ensures Reachable(Admitting(tasks + {conn}, live + {conn}, kinds[conn := Connection], closed, conn))
  {
    hide Reachable;
    var l := Ledger(1, 1, kinds, 1, false, closed, {});
    var s0 := State(Serving(tasks, live), l);
    var s1 := State(Serving(tasks, live), l.(listener := 0, accepting := true));
    Then(s0, TakeConnectionPermit, s1);
    var l2 := l.(listener := 0, kinds := kinds[conn := Connection]);
    var s2 := State(Spawning(tasks, live, conn), l2);
    Then(s1, OfferConnection(conn), s2);
    var g := Serving(tasks + {conn}, live + {conn});
    Then(s2, Group(Supervisor.Receive), State(g, l2));
    var l4 := l2.(streams := closed[conn := 1]);
    Then(State(g, l2), OpenStreams(conn), State(g, l4));
    assert l4.streams[conn := 0] == closed[conn := 0];
    Then(State(g, l4), TakeStreamPermit(conn), State(g, l4.(streams := closed[conn := 0], admitting := {conn})));
  }

  /** The handler moves its permit into stream task `task`, which then runs. */
  lemma RunStream(tasks: set<nat>, live: set<nat>, kinds: map<nat, Kind>, closed: map<nat, nat>, conn: nat, task: nat)
    requires Reachable(Admitting(tasks, live, kinds, closed, conn))
    requires task !in tasks && task !in kinds && live <= tasks
    ensures Reachable(State(Serving(tasks + {task}, live + {task}),
                            Ledger(1, 1, kinds[task := Stream(conn)], 0, false, closed[conn := 0], {})))
  {
    hide Reachable;
    var l := Ledger(1, 1, kinds[task := Stream(conn)], 0, false, closed[conn := 0], {});
    var s1 := State(Spawning(tasks, live, task), l);
    Then(Admitting(tasks, live, kinds, closed, conn), OfferStream(conn, task), s1);
    Then(s1, Group(Supervisor.Receive), State(Serving(tasks + {task}, live + {task}), l));
  }

  /**
   With one connection and one stream per connection allowed, two stream tasks run at once.  The run
   passes through a state in which the bound still holds although a handler is already gone: a handler
   that ends first breaks the bound only once its permit admits another connection with streams.
   */
  lemma StreamsOutliveConnections() returns (before: State, s: State)
    ensures Reachable(before) && |AllStreams(before)| == 1 && !(Parents(before) <= ConnectionTasks(before))
    ensures Reachable(s) && s.ledger.maxConnections == 1 && s.ledger.maxStreams == 1
    ensures s.group.live == {1, 2, 3}
    ensures s.ledger.kinds == map[0 := Connection, 1 := Stream(0), 2 := Connection, 3 := Stream(2)]
  {
    hide Reachable;
    var start := FirstConnection();
    RunStream({0}, {0}, map[0 := Connection], map[], 0, 1);
    var kinds := map[0 := Connection][1 := Stream(0)];
    var ended: map<nat, nat> := map[][0 := 0];
    var s1 := State(Serving({0} + {1}, {0} + {1}), Ledger(1, 1, kinds, 0, false, ended, {}));
    assert {0} + {1} - {0} == {1};
    var s2 := State(Serving({0} + {1}, {1}), Ledger(1, 1, kinds, 1, false, ended, {}));
    Then(s1, Group(Supervisor.End(0)), s2);
    before := s2;
    OneStreamLeft(before);
    AcceptConnection({0} + {1}, {1}, kinds, ended, 2);
    RunStream({0} + {1} + {2}, {1} + {2}, kinds[2 := Connection], ended, 2, 3);
    s := State(Serving({0} + {1} + {2} + {3}, {1} + {2} + {3}),
               Ledger(1, 1, kinds[2 := Connection][3 := Stream(2)], 0, false, ended[2 := 0], {}));
  }

  lemma FirstConnection() returns (s: State)
    ensures s == Admitting({0}, {0}, map[0 := Connection], map[], 0) && Reachable(s)
  {
    hide Reachable;
    Initially();
    var l := Init(1, 1).ledger;
    var s1 := State(Supervisor.INIT, l.(listener := 0, accepting := true));
    Then(Init(1, 1), TakeConnectionPermit, s1);
    var l2 := l.(listener := 0, kinds := map[0 := Connection]);
    var s2 := State(Spawning({}, {}, 0), l2);
    Then(s1, OfferConnection(0), s2);
    Then(s2, Group(Supervisor.Receive), State(Serving({0}, {0}), l2));
    var l4 := l2.(streams := map[0 := 1]);
    Then(State(Serving({0}, {0}), l2), OpenStreams(0), State(Serving({0}, {0}), l4));
    s := Admitting({0}, {0}, map[0 := Connection], map[], 0);
    Then(State(Serving({0}, {0}), l4), TakeStreamPermit(0), s);
  }

  lemma OneStreamLeft(s: State)
    requires s.group.queue == [] && s.group.live == {1} && s.ledger.kinds == map[0 := Connection, 1 := Stream(0)]
    ensures AllStreams(s) == {1} && |AllStreams(s)| == 1
    ensures 0 in Parents(s) && 0 !in ConnectionTasks(s)
  {
    assert Supervisor.Queued([]) == {};
    assert AllStreams(s) == {1};
    assert 1 in AllStreams(s) && s.ledger.kinds[1].conn == 0;
  }
}
