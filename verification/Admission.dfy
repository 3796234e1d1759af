/**
 Admission control of the DoQ listener (src/readers/doq.rs) composed with the
 task supervisor: every connection, unidirectional and stream task is a task of
 one supervised group, which may refuse, queue, run, abort or orphan it.
 */
module Admission {
  import Supervisor
  import SupervisorTheorems
  import opened Counting
  import opened Permits

  datatype State = State(group: Supervisor.State, ledger: Ledger)

  datatype Action =
    | TakeConnectionPermit
    | OfferConnection(task: nat)
    | LoseConnectionPermit              // the listener is dropped between permit and spawn
    | OpenStreams(conn: nat)            // the handler creates its stream_limit
    | TakeStreamPermit(conn: nat)
    | OfferStream(conn: nat, task: nat)
    | OfferUnidirectional(conn: nat, task: nat)
    | Group(a: Supervisor.Action)       // every other step of the supervisor

  function Init(maxConnections: nat, maxStreams: nat): State {
    State(Supervisor.INIT, Ledger(maxConnections, maxStreams, map[], maxConnections, false, map[], {}))
  }

  predicate IsHandler(s: State, conn: nat) {
    conn in s.group.live && conn in s.ledger.kinds && s.ledger.kinds[conn] == Connection
  }

  predicate CanOffer(s: State, task: nat) {
    Supervisor.Enabled(s.group, Supervisor.SpawnTask(task)) && task !in s.ledger.kinds
  }

  predicate Enabled(s: State, a: Action) {
    match a
    case TakeConnectionPermit => !s.ledger.accepting && s.ledger.listener > 0
    case OfferConnection(task) => s.ledger.accepting && CanOffer(s, task)
    case LoseConnectionPermit => s.ledger.accepting
    case OpenStreams(conn) => IsHandler(s, conn) && conn !in s.ledger.streams
    case TakeStreamPermit(conn) =>
      IsHandler(s, conn) && conn in s.ledger.streams && conn !in s.ledger.admitting && s.ledger.streams[conn] > 0
    case OfferStream(conn, task) => conn in s.ledger.admitting && CanOffer(s, task)
    case OfferUnidirectional(conn, task) => IsHandler(s, conn) && CanOffer(s, task)
    case Group(a) => !a.SpawnTask? && Supervisor.Enabled(s.group, a)
  }

  /** `spawn` of a task that owns a permit; a closed group drops the task, and the permit with it. */
  function Offer(group: Supervisor.State, ledger: Ledger, task: nat, kind: Kind): State {
    var named := ledger.(kinds := ledger.kinds[task := kind]);
    State(Supervisor.SpawnNext(group, task), if group.closed then Dropped(named, task) else named)
  }

  function Apply(s: State, a: Action): State
    requires Enabled(s, a)
  {
    var l := s.ledger;
    match a
    case TakeConnectionPermit => s.(ledger := l.(listener := l.listener - 1, accepting := true))
    case OfferConnection(task) => Offer(s.group, l.(accepting := false), task, Connection)
    case LoseConnectionPermit => s.(ledger := l.(listener := l.listener + 1, accepting := false))
    case OpenStreams(conn) => s.(ledger := l.(streams := l.streams[conn := l.maxStreams]))
    case TakeStreamPermit(conn) =>
      s.(ledger := l.(streams := l.streams[conn := l.streams[conn] - 1], admitting := l.admitting + {conn}))
    case OfferStream(conn, task) => Offer(s.group, l.(admitting := l.admitting - {conn}), task, Stream(conn))
    case OfferUnidirectional(conn, task) => Offer(s.group, l, task, Unidirectional(conn))
    case Group(a) => State(Supervisor.Apply(s.group, a), if a.End? then Dropped(l, a.task) else l)
  }

  ghost predicate Step(s: State, a: Action, t: State) {
    Enabled(s, a) && t == Apply(s, a)
  }

  ghost predicate Run(maxConnections: nat, maxStreams: nat, states: seq<State>, actions: seq<Action>) {
    && |states| == |actions| + 1
    && states[0] == Init(maxConnections, maxStreams)
    && forall i :: 0 <= i < |actions| ==> Step(states[i], actions[i], states[i + 1])
  }

  // ----- the invariant -----

  /** Accepted tasks that have not ended: queued, running, or being torn down. */
  function Outstanding(g: Supervisor.State): set<nat> {
    Supervisor.Queued(g.queue) + g.live
  }

  ghost predicate Inv(s: State) {
    && Supervisor.Inv(s.group)
    && Outstanding(s.group) <= s.group.accepted
    && Conserved(s.ledger, Outstanding(s.group), s.group.live)
  }

  /** What a step of the supervisor does to the outstanding tasks. */
  lemma OutstandingAfter(s: Supervisor.State, a: Supervisor.Action)
    requires Supervisor.Inv(s) && Supervisor.Enabled(s, a)
    ensures var t := Supervisor.Apply(s, a);
            && Outstanding(t) <= t.accepted
            && Outstanding(t)
               == match a
                  case SpawnTask(task) => if s.closed then Outstanding(s) else Outstanding(s) + {task}
                  case End(task) => Outstanding(s) - {task}
                  case _ => Outstanding(s)
    ensures var t := Supervisor.Apply(s, a);
            if a.End? then t.live == s.live - {a.task} && a.task in Outstanding(s) else s.live <= t.live
  {
    Supervisor.StepInv(s, a);
    match a {
      case SpawnTask(task) => Supervisor.QueuedAppend(s.queue, Supervisor.Spawn(task));
      case SendShutdown => Supervisor.QueuedAppend(s.queue, Supervisor.Shutdown);
      case Receive => Supervisor.QueuedTail(s.queue);
      case _ =>
    }
  }

  lemma MoreLive(l: Ledger, tasks: set<nat>, live: set<nat>, more: set<nat>)
    requires Conserved(l, tasks, live) && live <= more
    ensures Conserved(l, tasks, more)
  {
    hide OfKind;
  }

  lemma GroupInv(s: State, a: Supervisor.Action)
    requires Inv(s) && Enabled(s, Group(a))
    ensures Inv(Apply(s, Group(a)))
  {
    Supervisor.StepInv(s.group, a);
    OutstandingAfter(s.group, a);
    var t := Supervisor.Apply(s.group, a);
    hide Supervisor.Inv, Supervisor.Apply, Supervisor.Enabled, Outstanding, Conserved, Dropped;
    assert Apply(s, Group(a)) == State(t, if a.End? then Dropped(s.ledger, a.task) else s.ledger);
    if a.End? {
      assert a.task in s.group.live by { EndedWasLive(s.group, a); }
      EndConserves(s.ledger, Outstanding(s.group), s.group.live, a.task);
    } else {
      MoreLive(s.ledger, Outstanding(s.group), s.group.live, t.live);
    }
  }

  lemma EndedWasLive(s: Supervisor.State, a: Supervisor.Action)
    requires a.End? && Supervisor.Enabled(s, a)
    ensures a.task in s.live
  {
  }

  lemma OfferInv(s: State, ledger: Ledger, task: nat, kind: Kind)
    requires Inv(s) && Supervisor.Enabled(s.group, Supervisor.SpawnTask(task)) && task !in ledger.kinds
    requires Known(ledger, Outstanding(s.group), s.group.live)
    requires Balanced(ledger, Outstanding(s.group), {kind})
    requires kind.Stream? ==> kind.conn in ledger.streams
    ensures Inv(Offer(s.group, ledger, task, kind))
  {
    var a := Supervisor.SpawnTask(task);
    Supervisor.StepInv(s.group, a);
    OutstandingAfter(s.group, a);
    var t := Offer(s.group, ledger, task, kind);
    assert t.group == Supervisor.Apply(s.group, a);
    hide Supervisor.Inv, Supervisor.Apply, Supervisor.Enabled, Outstanding, Conserved, Dropped, Known, Balanced;
    if s.group.closed {
      RefuseConserves(ledger, Outstanding(s.group), s.group.live, task, kind);
      MoreLive(t.ledger, Outstanding(s.group), s.group.live, t.group.live);
    } else {
      AcceptConserves(ledger, Outstanding(s.group), s.group.live, task, kind);
      MoreLive(t.ledger, Outstanding(t.group), s.group.live, t.group.live);
    }
  }

  lemma LedgerStepInv(s: State, a: Action)
    requires Inv(s) && Enabled(s, a)
    requires a.TakeConnectionPermit? || a.LoseConnectionPermit? || a.OpenStreams? || a.TakeStreamPermit?
    ensures Inv(Apply(s, a))
  {
    var l, tasks, live := s.ledger, Outstanding(s.group), s.group.live;
    hide Supervisor.Inv, Outstanding, Conserved;
    match a {
      case OpenStreams(conn) => OpenConserves(l, tasks, live, conn);
      case TakeStreamPermit(conn) => AdmitConserves(l, tasks, live, conn);
      case _ => TakeConserves(l, tasks, live);
    }
  }

  lemma StepInv(s: State, a: Action)
    requires Inv(s) && Enabled(s, a)
    ensures Inv(Apply(s, a))
  {
    hide Supervisor.Inv, Supervisor.Enabled, Supervisor.Apply, Supervisor.SpawnNext, Outstanding, OfKind;
    match a {
      case OfferConnection(task) => OfferInv(s, s.ledger.(accepting := false), task, Connection);
      case OfferStream(conn, task) =>
        OfferInv(s, s.ledger.(admitting := s.ledger.admitting - {conn}), task, Stream(conn));
      case OfferUnidirectional(conn, task) => OfferInv(s, s.ledger, task, Unidirectional(conn));
      case Group(b) => GroupInv(s, b);
      case _ => LedgerStepInv(s, a);
    }
  }

  lemma StepKeepsLimits(s: State, a: Action)
    requires Enabled(s, a)
    ensures Apply(s, a).ledger.maxConnections == s.ledger.maxConnections
    ensures Apply(s, a).ledger.maxStreams == s.ledger.maxStreams
  {
    hide Supervisor.Enabled, Supervisor.Apply, Supervisor.SpawnNext;
  }

  lemma InitInv(maxConnections: nat, maxStreams: nat)
    ensures Inv(Init(maxConnections, maxStreams))
  {
    assert OfKind(map[], {}, Connection) == {};
    assert Outstanding(Supervisor.INIT) == {};
  }

  lemma {:induction false} ReachableInv(
    maxConnections: nat, maxStreams: nat, states: seq<State>, actions: seq<Action>, i: nat)
    requires Run(maxConnections, maxStreams, states, actions) && i < |states|
    ensures Inv(states[i])
    ensures states[i].ledger.maxConnections == maxConnections && states[i].ledger.maxStreams == maxStreams
  {
    hide Inv, Enabled, Apply;
    if i == 0 {
      InitInv(maxConnections, maxStreams);
    } else {
      ReachableInv(maxConnections, maxStreams, states, actions, i - 1);
      assert Step(states[i - 1], actions[i - 1], states[i - 1 + 1]);
      StepInv(states[i - 1], actions[i - 1]);
      StepKeepsLimits(states[i - 1], actions[i - 1]);
    }
  }

  // ----- what it means -----

  function ConnectionTasks(s: State): set<nat> {
    OfKind(s.ledger.kinds, Outstanding(s.group), Connection)
  }

  function StreamTasks(s: State, conn: nat): set<nat> {
    OfKind(s.ledger.kinds, Outstanding(s.group), Stream(conn))
  }

  /** In every reachable state both limits hold, and only tasks and the two loops hold permits. */
  lemma AdmissionBounds(
    maxConnections: nat, maxStreams: nat, states: seq<State>, actions: seq<Action>, i: nat, conn: nat)
    requires Run(maxConnections, maxStreams, states, actions) && i < |states|
    ensures |ConnectionTasks(states[i])| <= maxConnections
    ensures |StreamTasks(states[i], conn)| <= maxStreams
    ensures states[i].ledger.listener
            == maxConnections - |ConnectionTasks(states[i])| - One(states[i].ledger.accepting)
    ensures conn in states[i].ledger.streams ==>
              states[i].ledger.streams[conn]
              == maxStreams - |StreamTasks(states[i], conn)| - One(conn in states[i].ledger.admitting)
  {
    ReachableInv(maxConnections, maxStreams, states, actions, i);
    if conn !in states[i].ledger.streams {
      assert StreamTasks(states[i], conn) == {};
    }
  }

  /** When the group reports completion, every permit a task ever owned is back. */
  lemma CompletionReturnsPermits(
    maxConnections: nat, maxStreams: nat, states: seq<State>, actions: seq<Action>, i: nat, conn: nat)
    requires Run(maxConnections, maxStreams, states, actions) && i < |states| && states[i].group.completed
    ensures states[i].ledger.listener + One(states[i].ledger.accepting) == maxConnections
    ensures conn in states[i].ledger.streams ==> states[i].ledger.streams[conn] == maxStreams
  {
    ReachableInv(maxConnections, maxStreams, states, actions, i);
    SupervisorTheorems.CompletedIsDrained(states[i].group);
    assert Supervisor.Queued([]) == {};
    AdmissionBounds(maxConnections, maxStreams, states, actions, i, conn);
    assert ConnectionTasks(states[i]) == {} && StreamTasks(states[i], conn) == {};
  }

  /** A closed group refuses the task, and its permit is back in the same step. */
  lemma RefusedConnectionReturnsPermit(s: State, task: nat)
    requires s.group.closed && Enabled(s, OfferConnection(task))
    ensures Apply(s, OfferConnection(task)).ledger.listener == s.ledger.listener + 1
    ensures Outstanding(Apply(s, OfferConnection(task)).group) == Outstanding(s.group)
  {
  }

  lemma RefusedStreamReturnsPermit(s: State, conn: nat, task: nat)
    requires s.group.closed && Enabled(s, OfferStream(conn, task))
    ensures Apply(s, OfferStream(conn, task)).ledger.streams == Return(s.ledger.streams, conn)
    ensures Outstanding(Apply(s, OfferStream(conn, task)).group) == Outstanding(s.group)
  {
  }
}
