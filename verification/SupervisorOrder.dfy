/** The supervisor starts the tasks it accepted in the order in which they were spawned. */
module SupervisorOrder {
  import opened Supervisor

  /** Step `i` of the run accepts the task. */
  ghost predicate Accepts(states: seq<State>, i: nat, task: nat) {
    i + 1 < |states| && task !in states[i].accepted && task in states[i + 1].accepted
  }

  /** Step `i` of the run starts the task: it joins the JoinSet. */
  ghost predicate Starts(states: seq<State>, i: nat, task: nat) {
    i + 1 < |states| && task !in states[i].tasks && task in states[i + 1].tasks
  }

  ghost predicate StartedBefore(states: seq<State>, j: nat, task: nat) {
    exists i: nat :: i < j && Starts(states, i, task)
  }

  /** `a` stands before `b` in the queue. */
  ghost predicate Before(queue: seq<Command>, a: nat, b: nat) {
    exists i, j :: 0 <= i < j < |queue| && queue[i] == Spawn(a) && queue[j] == Spawn(b)
  }

  // ----- one step -----

  lemma AcceptingAppends(s: State, a: Action, task: nat)
    requires Enabled(s, a) && task !in s.accepted && task in Apply(s, a).accepted
    ensures a == SpawnTask(task) && Apply(s, a).queue == s.queue + [Spawn(task)]
  {
  }

  lemma StartingTakesFirst(s: State, a: Action, task: nat)
    requires Enabled(s, a) && task !in s.tasks && task in Apply(s, a).tasks
    ensures a == Receive && s.queue != [] && s.queue[0] == Spawn(task)
  {
  }

  /** A queued task stays queued or is started. */
  lemma QueueStep(s: State, a: Action, task: nat)
    requires Inv(s) && Enabled(s, a) && task in Queued(s.queue)
    ensures task in Queued(Apply(s, a).queue) || (task !in s.tasks && task in Apply(s, a).tasks)
  {
    hide Phases, Queued;
    if a.SpawnTask? {
      QueuedAppend(s.queue, Spawn(a.task));
    } else if a.SendShutdown? {
      QueuedAppend(s.queue, Shutdown);
    } else if a.Receive? {
      QueuedTail(s.queue);
    }
  }

  lemma BeforeInAppended(queue: seq<Command>, c: Command, a: nat, b: nat)
    requires Before(queue, a, b)
    ensures Before(queue + [c], a, b)
  {
    var i, j :| 0 <= i < j < |queue| && queue[i] == Spawn(a) && queue[j] == Spawn(b);
    var q := queue + [c];
    assert q[i] == Spawn(a) && q[j] == Spawn(b);
  }

  lemma BeforeInTail(queue: seq<Command>, a: nat, b: nat)
    requires Before(queue, a, b) && queue[0] != Spawn(a)
    ensures Before(queue[1..], a, b)
  {
    var i, j :| 0 <= i < j < |queue| && queue[i] == Spawn(a) && queue[j] == Spawn(b);
    assert queue[1..][i - 1] == Spawn(a) && queue[1..][j - 1] == Spawn(b);
  }

  /** As long as the first of two tasks waits, they wait in this order. */
  lemma BeforeStep(s: State, a: Action, first: nat, second: nat)
    requires Inv(s) && Enabled(s, a) && Before(s.queue, first, second)
    ensures Before(Apply(s, a).queue, first, second) || (first !in s.tasks && first in Apply(s, a).tasks)
  {
    BothQueued(s.queue, first, second);
    if a.SpawnTask? {
      BeforeInAppended(s.queue, Spawn(a.task), first, second);
    } else if a.SendShutdown? {
      BeforeInAppended(s.queue, Shutdown, first, second);
    } else if a.Receive? && s.queue[0] != Spawn(first) {
      BeforeInTail(s.queue, first, second);
    }
    hide Before, Phases, Queued;
  }

  lemma BothQueued(queue: seq<Command>, a: nat, b: nat)
    requires Before(queue, a, b)
    ensures a in Queued(queue) && b in Queued(queue)
  {
  }

  // ----- whole runs -----

  /** An accepted task has been started or waits in the queue. */
  lemma {:induction false} AcceptedWaits(states: seq<State>, actions: seq<Action>, i: nat, j: nat, task: nat)
    requires Run(states, actions) && Accepts(states, i, task) && i < j < |states|
    ensures StartedBefore(states, j, task) || task in Queued(states[j].queue)
    decreases j
  {
    StepAt(states, actions, j - 1);
    if i + 1 < j {
      AcceptedWaits(states, actions, i, j - 1, task);
      ReachableInv(states, actions, j - 1);
      if !StartedBefore(states, j - 1, task) {
        QueueStep(states[j - 1], actions[j - 1], task);
        hide *;
        StartedNext(states, j - 1, task);
      }
      hide *;
      StartedStays(states, j - 1, task);
    } else {
      AcceptingAppends(states[i], actions[i], task);
      QueuedAppend(states[i].queue, Spawn(task));
    }
  }

  lemma StartedNext(states: seq<State>, j: nat, task: nat)
    requires j + 1 < |states|
    ensures task !in states[j].tasks && task in states[j + 1].tasks ==> StartedBefore(states, j + 1, task)
  {
    assert task !in states[j].tasks && task in states[j + 1].tasks ==> Starts(states, j, task);
  }

  lemma StartedStays(states: seq<State>, j: nat, task: nat)
    ensures StartedBefore(states, j, task) ==> StartedBefore(states, j + 1, task)
  {
  }

  /** Of two tasks accepted one after the other the first has been started, or waits before the second. */
  lemma {:induction false} InOrder(
    states: seq<State>, actions: seq<Action>, i: nat, k: nat, j: nat, first: nat, second: nat)
    requires Run(states, actions) && Accepts(states, i, first) && Accepts(states, k, second)
    requires i < k < j < |states|
    ensures StartedBefore(states, j, first) || Before(states[j].queue, first, second)
    decreases j
  {
    if k + 1 < j {
      hide *;
      InOrder(states, actions, i, k, j - 1, first, second);
      StartedStays(states, j - 1, first);
      OrderAt(states, actions, j - 1, first, second);
    } else {
      OrderBegins(states, actions, i, k, first, second);
      hide *;
    }
  }

  lemma OrderAt(states: seq<State>, actions: seq<Action>, j: nat, first: nat, second: nat)
    requires Run(states, actions) && j < |actions|
    ensures Before(states[j].queue, first, second) ==>
              Before(states[j + 1].queue, first, second) || StartedBefore(states, j + 1, first)
  {
    StepAt(states, actions, j);
    ReachableInv(states, actions, j);
    StartedNext(states, j, first);
    assert |states| == |actions| + 1;
    hide *;
    if Before(states[j].queue, first, second) {
      BeforeStep(states[j], actions[j], first, second);
    }
  }

  lemma OrderBegins(states: seq<State>, actions: seq<Action>, i: nat, k: nat, first: nat, second: nat)
    requires Run(states, actions) && Accepts(states, i, first) && Accepts(states, k, second) && i < k
    ensures StartedBefore(states, k + 1, first) || Before(states[k + 1].queue, first, second)
  {
    AcceptedWaits(states, actions, i, k, first);
    StepAt(states, actions, k);
    AcceptingAppends(states[k], actions[k], second);
    StartedStays(states, k, first);
    hide *;
    if first in Queued(states[k].queue) {
      LastInQueue(states[k].queue, first, second);
    }
  }

  lemma LastInQueue(queue: seq<Command>, first: nat, second: nat)
    requires first in Queued(queue)
    ensures Before(queue + [Spawn(second)], first, second)
  {
    var i :| 0 <= i < |queue| && queue[i] == Spawn(first);
    var q := queue + [Spawn(second)];
    assert q[i] == Spawn(first) && q[|queue|] == Spawn(second);
  }

  /** A task accepted before another is started before it. */
  lemma StartedInOrder(
    states: seq<State>, actions: seq<Action>, i: nat, k: nat, j: nat, first: nat, second: nat)
    requires Run(states, actions) && Accepts(states, i, first) && Accepts(states, k, second) && i < k
    requires Starts(states, j, second)
    ensures exists m: nat :: m < j && Starts(states, m, first)
  {
    StartsAfterAccepted(states, actions, k, j, second);
    InOrder(states, actions, i, k, j, first, second);
    if !StartedBefore(states, j, first) {
      StepAt(states, actions, j);
      ReachableInv(states, actions, j);
      StartingTakesFirst(states[j], actions[j], second);
      FirstIsFirst(states[j].queue, first, second);
    }
  }

  lemma FirstIsFirst(queue: seq<Command>, first: nat, second: nat)
    requires Distinct(queue) && queue != [] && queue[0] == Spawn(second)
    ensures !Before(queue, first, second)
  {
  }

  lemma StartsAfterAccepted(states: seq<State>, actions: seq<Action>, k: nat, j: nat, task: nat)
    requires Run(states, actions) && Accepts(states, k, task) && Starts(states, j, task)
    ensures k < j
  {
    if j <= k {
      StepAt(states, actions, j);
      ReachableInv(states, actions, j + 1);
      assert task in states[j + 1].accepted;
      hide Inv, Run;
      if j < k {
        AcceptedGrows(states, actions, j + 1, k, task);
      } else {
        ReachableInv(states, actions, j);
        QueuedIsAccepted(states, actions, j, task);
      }
    }
  }

  lemma QueuedIsAccepted(states: seq<State>, actions: seq<Action>, j: nat, task: nat)
    requires Run(states, actions) && Starts(states, j, task)
    ensures task in states[j].accepted
  {
    StepAt(states, actions, j);
    ReachableInv(states, actions, j);
    StartingTakesFirst(states[j], actions[j], task);
  }

  lemma {:induction false} AcceptedGrows(states: seq<State>, actions: seq<Action>, i: nat, j: nat, task: nat)
    requires Run(states, actions) && i <= j < |states| && task in states[i].accepted
    ensures task in states[j].accepted
    decreases j
  {
    if i < j {
      AcceptedGrows(states, actions, i, j - 1, task);
      StepAt(states, actions, j - 1);
    }
  }
}
