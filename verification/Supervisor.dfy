/**
 The task supervisor (src/tasks.rs) as a state machine: callers that spawn and
 close under the state lock, an actor that owns the JoinSet and reads a FIFO
 queue, and child tasks that end on their own or after an abort.  Any
 interleaving of the actions is a run.
 */
module Supervisor {
  datatype Command = Spawn(task: nat) | Shutdown

  datatype Actor =
    | NotStarted
    | Serving   // in the select loop
    | Draining  // has received Shutdown; joins tasks until the deadline
    | Aborting  // the deadline passed; joins the aborted tasks
    | Stopped

  /** The caller that flips `closed`, in close_and_wait_until. */
  datatype Closer =
    | Nobody
    | HoldsSender // closed is set, Shutdown not yet sent
    | Waiting     // Shutdown sent, waiting for `completed`
    | Abandoned   // its future was dropped while it waited
    | Released    // returned

  datatype State = State(
    closed: bool,
    hasSender: bool,        // `commands` is Some
    queue: seq<Command>,
    actor: Actor,
    tasks: set<nat>,        // the JoinSet
    live: set<nat>,         // tasks handed to the runtime and not ended
    closer: Closer,
    completed: bool,        // the oneshot has fired
    accepted: set<nat>,     // every task whose Spawn was queued
    rejected: set<nat>,     // every task dropped unrun because the group was closed
    joined: set<nat>,       // every task the actor has joined
    orphaned: set<nat>)     // tasks of a JoinSet dropped without Shutdown

  datatype Action =
    | SpawnTask(task: nat)
    | Flip              // the locked part of close_and_wait_until
    | SendShutdown
    | AbandonWait       // the waiting closer's future is dropped
    | Receive
    | End(task: nat)    // a task finishes, or an aborted one is torn down
    | Join(task: nat)
    | DeadlinePasses
    | Complete
    | DropGroup         // the last TaskGroup goes away, and the sender with it
    | Exit              // recv() returns None

  const INIT := State(false, false, [], NotStarted, {}, {}, Nobody, false, {}, {}, {}, {})

  // ----- the actions -----

  predicate IsFresh(s: State, task: nat) {
    task !in s.accepted && task !in s.rejected
  }

  function SpawnNext(s: State, task: nat): State {
    if s.closed then s.(rejected := s.rejected + {task})
    else s.(hasSender := true,
            actor := if s.actor == NotStarted then Serving else s.actor,
            queue := s.queue + [Spawn(task)],
            accepted := s.accepted + {task})
  }

  /** A second caller finds `closed` set and returns at once. */
  function FlipNext(s: State): State {
    if s.closed then s
    else s.(closed := true, closer := if s.hasSender then HoldsSender else Released)
  }

  function ReceiveNext(s: State): State
    requires s.queue != []
  {
    match s.queue[0]
    case Spawn(task) => s.(queue := s.queue[1..], tasks := s.tasks + {task}, live := s.live + {task})
    case Shutdown => s.(queue := s.queue[1..], actor := Draining)
  }

  /** Some clone of the TaskGroup still exists. */
  predicate GroupExists(s: State) {
    s.hasSender || s.actor == NotStarted
  }

  predicate Enabled(s: State, a: Action) {
    match a
    case SpawnTask(task) => IsFresh(s, task) && GroupExists(s)
    case Flip => GroupExists(s)
    case SendShutdown => s.closer == HoldsSender
    case AbandonWait => s.closer == Waiting
    case Receive => s.actor == Serving && s.queue != []
    case End(task) => task in s.live
    case Join(task) => task in s.tasks && task !in s.live && (s.actor == Serving || s.actor == Draining || s.actor == Aborting)
    case DeadlinePasses => s.actor == Draining && s.tasks != {}
    case Complete => (s.actor == Draining || s.actor == Aborting) && s.tasks == {}
    case DropGroup => s.hasSender && s.closer != HoldsSender && s.closer != Waiting
    case Exit => s.actor == Serving && s.queue == [] && !s.hasSender
  }

  function Apply(s: State, a: Action): State
    requires Enabled(s, a)
  {
    match a
    case SpawnTask(task) => SpawnNext(s, task)
    case Flip => FlipNext(s)
    case SendShutdown => s.(queue := s.queue + [Shutdown], closer := Waiting)
    case AbandonWait => s.(closer := Abandoned)
    case Receive => ReceiveNext(s)
    case End(task) => s.(live := s.live - {task})
    case Join(task) => s.(tasks := s.tasks - {task}, joined := s.joined + {task})
    case DeadlinePasses => s.(actor := Aborting)
    case Complete => s.(actor := Stopped, completed := true, closer := if s.closer == Waiting then Released else s.closer)
    case DropGroup => s.(hasSender := false)
    case Exit => s.(actor := Stopped, tasks := {}, orphaned := s.orphaned + s.tasks)
  }

  ghost predicate Step(s: State, a: Action, t: State) {
    Enabled(s, a) && t == Apply(s, a)
  }

  ghost predicate Run(states: seq<State>, actions: seq<Action>) {
    && |states| == |actions| + 1
    && states[0] == INIT
    && forall i :: 0 <= i < |actions| ==> Step(states[i], actions[i], states[i + 1])
  }

  // ----- the invariant -----

  function Queued(queue: seq<Command>): set<nat> {
    set i | 0 <= i < |queue| && queue[i].Spawn? :: queue[i].task
  }

  ghost predicate Distinct(queue: seq<Command>) {
    forall i, j :: 0 <= i < j < |queue| ==> queue[i] != queue[j]
  }

  /** Shutdown can only be the last command. */
  ghost predicate ShutdownLast(queue: seq<Command>) {
    forall i :: 0 <= i < |queue| - 1 ==> queue[i].Spawn?
  }

  predicate ShutdownQueued(queue: seq<Command>) {
    |queue| > 0 && queue[|queue| - 1] == Shutdown
  }

  /** Every accepted task is in exactly one place. */
  ghost predicate Partition(s: State) {
    && s.accepted == Queued(s.queue) + s.tasks + s.joined + s.orphaned
    && Queued(s.queue) !! s.tasks !! s.joined !! s.orphaned
    && s.live <= s.tasks + s.orphaned
    && s.accepted !! s.rejected
  }

  /** Shutdown has been sent and not yet been dealt with. */
  predicate ShutdownPending(s: State) {
    (s.closer == Waiting || s.closer == Abandoned) && !s.completed
  }

  predicate ActorRuns(actor: Actor) {
    actor == Serving || actor == Draining || actor == Aborting
  }

  ghost predicate Phases(s: State) {
    && (s.closer == Nobody <==> !s.closed)
    && (s.actor == NotStarted ==> !s.hasSender && s.queue == [] && s.accepted == {} && s.closer != HoldsSender)
    && (s.closer == HoldsSender ==> s.actor == Serving && s.hasSender)
    && (s.closer == Waiting ==> !s.completed && s.hasSender)
    && (ShutdownPending(s) ==> ActorRuns(s.actor))
    && (ShutdownQueued(s.queue) <==> ShutdownPending(s) && s.actor == Serving)
    && (s.actor == Draining || s.actor == Aborting ==> ShutdownPending(s) && s.queue == [])
    && (s.actor == Stopped ==> s.queue == [] && s.tasks == {} && (s.completed || !s.hasSender))
    && (s.completed ==> s.actor == Stopped && (s.closer == Released || s.closer == Abandoned))
    && (s.closer == Released ==> s.completed || s.actor == NotStarted)
    && (s.orphaned != {} ==> s.actor == Stopped && !s.closed)
    && (s.hasSender ==> s.actor != NotStarted)
  }

  ghost predicate Inv(s: State) {
    Distinct(s.queue) && ShutdownLast(s.queue) && Partition(s) && Phases(s)
  }

  lemma QueuedAppend(queue: seq<Command>, c: Command)
    ensures Queued(queue + [c]) == Queued(queue) + (if c.Spawn? then {c.task} else {})
  {
    var q := queue + [c];
    forall t | t in Queued(queue) ensures t in Queued(q) {
      var i :| 0 <= i < |queue| && queue[i] == Spawn(t);
      assert q[i] == Spawn(t);
    }
    assert q[|queue|] == c;
  }

  lemma QueuedTail(queue: seq<Command>)
    requires queue != [] && Distinct(queue)
    ensures Queued(queue[1..]) == Queued(queue) - (if queue[0].Spawn? then {queue[0].task} else {})
    ensures queue[0].Spawn? ==> queue[0].task in Queued(queue)
  {
    forall t | t in Queued(queue) && queue[0] != Spawn(t) ensures t in Queued(queue[1..]) {
      var i :| 0 <= i < |queue| && queue[i] == Spawn(t);
      assert queue[1..][i - 1] == Spawn(t);
    }
    forall t | t in Queued(queue[1..]) ensures t in Queued(queue) && queue[0] != Spawn(t) {
      var i :| 0 <= i < |queue[1..]| && queue[1..][i] == Spawn(t);
      assert queue[i + 1] == Spawn(t);
    }
  }

  lemma NotQueued(queue: seq<Command>, task: nat)
    requires task !in Queued(queue)
    ensures Spawn(task) !in queue
  {
  }

  lemma SpawnInv(s: State, task: nat)
    requires Inv(s) && Enabled(s, SpawnTask(task))
    ensures Inv(SpawnNext(s, task))
  {
    QueuedAppend(s.queue, Spawn(task));
    NotQueued(s.queue, task);
  }

  lemma SendInv(s: State)
    requires Inv(s) && s.closer == HoldsSender
    ensures Inv(Apply(s, SendShutdown))
  {
    QueuedAppend(s.queue, Shutdown);
    forall i | 0 <= i < |s.queue| ensures s.queue[i].Spawn? {
      if i == |s.queue| - 1 {
        assert !ShutdownQueued(s.queue);
      }
    }
  }

  lemma ReceiveInv(s: State)
    requires Inv(s) && Enabled(s, Receive)
    ensures Inv(ReceiveNext(s))
  {
    QueuedTail(s.queue);
    var rest := s.queue[1..];
    assert forall i :: 0 <= i < |rest| ==> rest[i] == s.queue[i + 1];
    if s.queue[0] == Shutdown {
      assert |s.queue| == 1;
    } else {
      assert ShutdownQueued(rest) == ShutdownQueued(s.queue);
    }
  }

  lemma StepInv(s: State, a: Action)
    requires Inv(s) && Enabled(s, a)
    ensures Inv(Apply(s, a))
  {
    match a {
      case SpawnTask(task) => SpawnInv(s, task);
      case SendShutdown => SendInv(s);
      case Receive => ReceiveInv(s);
      case _ =>
    }
  }

  lemma {:induction false} ReachableInv(states: seq<State>, actions: seq<Action>, i: nat)
    requires Run(states, actions) && i < |states|
    ensures Inv(states[i])
  {
    if i > 0 {
      ReachableInv(states, actions, i - 1);
      hide Inv;
      assert Step(states[i - 1], actions[i - 1], states[i - 1 + 1]);
      StepInv(states[i - 1], actions[i - 1]);
    }
  }

  lemma StepAt(states: seq<State>, actions: seq<Action>, i: nat)
    requires Run(states, actions) && i < |actions|
    ensures Enabled(states[i], actions[i]) && states[i + 1] == Apply(states[i], actions[i])
  {
    assert Step(states[i], actions[i], states[i + 1]);
  }
}
