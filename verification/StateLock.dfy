/**
 The state lock of the task group (src/tasks.rs), between the callers and the
 supervisor.  A call of `spawn` or of `close_and_wait_until` first waits for the
 lock; its locked section is an action of Supervisor, taken when it releases the
 lock.  A running child that waits for the lock cannot end before it gets it,
 unless it has been aborted.
 */
module StateLock {
  import opened Wrappers
  import opened Counting
  import Supervisor
  import SupervisorTheorems

  /** A call that waits for the lock or holds it; `child` is the child that makes it, if one does. */
  datatype Call = SpawnCall(child: Option<nat>, task: nat) | CloseCall(child: Option<nat>)

  datatype State = State(
    group: Supervisor.State,
    calls: map<nat, Call>,
    owner: Option<nat>) // the call that holds the lock

  datatype Action =
    | Request(id: nat, call: Call)
    | Acquire(id: nat)
    | Release(id: nat)
    | DropCall(id: nat)  // the future of a waiting call is dropped
    | Group(a: Supervisor.Action)

  const INIT := State(Supervisor.INIT, map[], None)

  /** The locked section of a call. */
  function Section(call: Call): Supervisor.Action {
    match call
    case SpawnCall(_, task) => Supervisor.SpawnTask(task)
    case CloseCall(_) => Supervisor.Flip
  }

  predicate IsCalling(s: State, child: nat) {
    exists id :: id in s.calls && s.calls[id].child == Some(child)
  }

  predicate IsOffered(s: State, task: nat) {
    exists id :: id in s.calls && s.calls[id].SpawnCall? && s.calls[id].task == task
  }

  /** The child has been aborted: it will not run on, and its future may be dropped where it waits. */
  predicate IsAborted(s: State, child: nat) {
    (s.group.actor == Supervisor.Aborting && child in s.group.tasks) || child in s.group.orphaned
  }

  predicate CanRequest(s: State, call: Call) {
    && Supervisor.GroupExists(s.group)
    && (call.child.Some? ==> call.child.value in s.group.live && !IsCalling(s, call.child.value))
    && (call.SpawnCall? ==> Supervisor.IsFresh(s.group, call.task) && !IsOffered(s, call.task))
  }

  /** What the lock adds to the steps of the supervisor. */
  predicate IsFree(s: State, a: Supervisor.Action) {
    match a
    case SpawnTask(_) => false
    case Flip => false
    case End(task) => !IsCalling(s, task)
    case DropGroup => s.calls == map[] // every call borrows the group
    case _ => true
  }

  predicate Enabled(s: State, a: Action) {
    match a
    case Request(id, call) => id !in s.calls && CanRequest(s, call)
    case Acquire(id) => id in s.calls && s.owner == None
    case Release(id) => s.owner == Some(id) && id in s.calls && Supervisor.Enabled(s.group, Section(s.calls[id]))
    case DropCall(id) =>
      && id in s.calls && s.owner != Some(id)
      && (s.calls[id].child.Some? ==> IsAborted(s, s.calls[id].child.value))
    case Group(a) => IsFree(s, a) && Supervisor.Enabled(s.group, a)
  }

  function Apply(s: State, a: Action): State
    requires Enabled(s, a)
  {
    match a
    case Request(id, call) => s.(calls := s.calls[id := call])
    case Acquire(id) => s.(owner := Some(id))
    case Release(id) => State(Supervisor.Apply(s.group, Section(s.calls[id])), s.calls - {id}, None)
    case DropCall(id) => s.(calls := s.calls - {id})
    case Group(a) => s.(group := Supervisor.Apply(s.group, a))
  }

  ghost predicate Step(s: State, a: Action, t: State) {
    Enabled(s, a) && t == Apply(s, a)
  }

  ghost predicate Run(states: seq<State>, actions: seq<Action>) {
    && |states| == |actions| + 1
    && states[0] == INIT
    && forall i :: 0 <= i < |actions| ==> Step(states[i], actions[i], states[i + 1])
  }

  lemma StepAt(states: seq<State>, actions: seq<Action>, i: nat)
    requires Run(states, actions) && i < |actions|
    ensures Enabled(states[i], actions[i]) && states[i + 1] == Apply(states[i], actions[i])
  {
    assert Step(states[i], actions[i], states[i + 1]);
  }

  // ----- the invariant -----

  ghost predicate CallIsSound(s: State, call: Call) {
    && (call.child.Some? ==> call.child.value in s.group.live)
    && (call.SpawnCall? ==> Supervisor.IsFresh(s.group, call.task))
  }

  ghost predicate Calls(s: State) {
    && (s.owner.Some? ==> s.owner.value in s.calls)
    && (s.calls != map[] ==> Supervisor.GroupExists(s.group))
    && (forall id :: id in s.calls ==> CallIsSound(s, s.calls[id]))
    && (forall i, j :: i in s.calls && j in s.calls && i != j ==> Compatible(s.calls[i], s.calls[j]))
  }

  /** A child makes one call at a time, and no two calls offer one task. */
  predicate Compatible(c: Call, d: Call) {
    && (c.child.Some? ==> c.child != d.child)
    && (c.SpawnCall? && d.SpawnCall? ==> c.task != d.task)
  }

  ghost predicate Inv(s: State) {
    Supervisor.Inv(s.group) && Calls(s)
  }

  /** A step of the supervisor keeps the calls sound, as long as it ends no caller. */
  lemma GroupStepKeepsCalls(s: State, a: Supervisor.Action)
    requires Inv(s) && IsFree(s, a) && Supervisor.Enabled(s.group, a)
    ensures Calls(s.(group := Supervisor.Apply(s.group, a)))
  {
  }

  lemma ReleaseKeepsCalls(s: State, id: nat)
    requires Inv(s) && Enabled(s, Release(id))
    ensures Calls(Apply(s, Release(id)))
  {
    var t := Apply(s, Release(id));
    forall j | j in t.calls ensures CallIsSound(t, t.calls[j]) {
      assert CallIsSound(s, s.calls[j]) && Compatible(s.calls[j], s.calls[id]);
    }
  }

  lemma StepInv(s: State, a: Action)
    requires Inv(s) && Enabled(s, a)
    ensures Inv(Apply(s, a))
  {
    match a {
      case Release(id) =>
        Supervisor.StepInv(s.group, Section(s.calls[id]));
        ReleaseKeepsCalls(s, id);
      case Group(b) =>
        Supervisor.StepInv(s.group, b);
        GroupStepKeepsCalls(s, b);
      case _ =>
    }
  }

  lemma {:induction false} ReachableInv(states: seq<State>, actions: seq<Action>, i: nat)
    requires Run(states, actions) && i < |states|
    ensures Inv(states[i])
  {
    if i > 0 {
      ReachableInv(states, actions, i - 1);
      StepAt(states, actions, i - 1);
      hide *;
      StepInv(states[i - 1], actions[i - 1]);
    }
  }

  // ----- the lock changes nothing about the supervisor -----

  /** The step of the supervisor that a step here performs, if any. */
  function Performed(s: State, a: Action): Option<Supervisor.Action>
    requires Enabled(s, a)
  {
    match a
    case Release(id) => Some(Section(s.calls[id]))
    case Group(a) => Some(a)
    case _ => None
  }

  lemma StepProjects(s: State, a: Action)
    requires Enabled(s, a)
    ensures match Performed(s, a)
            case None => Apply(s, a).group == s.group
            case Some(b) => Supervisor.Step(s.group, b, Apply(s, a).group)
  {
  }

  /** Every run with the lock is, seen without it, a run of the supervisor. */
  lemma {:induction false} RunProjects(states: seq<State>, actions: seq<Action>, i: nat)
    returns (groups: seq<Supervisor.State>, steps: seq<Supervisor.Action>)
    requires Run(states, actions) && i < |states|
    ensures Supervisor.Run(groups, steps) && groups[|steps|] == states[i].group
  {
    if i == 0 {
      groups, steps := [Supervisor.INIT], [];
    } else {
      groups, steps := RunProjects(states, actions, i - 1);
      StepAt(states, actions, i - 1);
      StepProjects(states[i - 1], actions[i - 1]);
      if Performed(states[i - 1], actions[i - 1]).Some? {
        groups, steps := Extended(groups, steps, Performed(states[i - 1], actions[i - 1]).value, states[i].group);
      }
    }
  }

  lemma Extended(
    groups: seq<Supervisor.State>, steps: seq<Supervisor.Action>, b: Supervisor.Action, t: Supervisor.State)
    returns (more: seq<Supervisor.State>, acts: seq<Supervisor.Action>)
    requires Supervisor.Run(groups, steps) && Supervisor.Step(groups[|steps|], b, t)
    ensures Supervisor.Run(more, acts) && more[|acts|] == t
  {
    hide Supervisor.Step;
    more, acts := groups + [t], steps + [b];
    forall i | 0 <= i < |acts| ensures Supervisor.Step(more[i], acts[i], more[i + 1]) {
      if i < |steps| {
        assert Supervisor.Step(groups[i], steps[i], groups[i + 1]);
      }
    }
  }

  // ----- the owner depends on nobody -----

  /** All that the owner's section reads of the group: nothing of the actor's queue and tasks. */
  predicate SameForCallers(g: Supervisor.State, h: Supervisor.State) {
    && h.closed == g.closed && h.hasSender == g.hasSender
    && (h.actor == Supervisor.NotStarted <==> g.actor == Supervisor.NotStarted)
    && h.accepted == g.accepted && h.rejected == g.rejected
  }

  /**
   Whoever holds the lock can release it, now and in every state that differs in the queue, the tasks,
   the phase of the actor or the closer alone: while the lock is held nothing is waited for.
   */
  lemma OwnerCanRelease(states: seq<State>, actions: seq<Action>, i: nat, group: Supervisor.State)
    requires Run(states, actions) && i < |states| && states[i].owner.Some?
    requires SameForCallers(states[i].group, group)
    ensures var s, id := states[i].(group := group), states[i].owner.value;
            && Enabled(s, Release(id))
            && Apply(s, Release(id)).owner == None && Apply(s, Release(id)).calls == states[i].calls - {id}
  {
    ReachableInv(states, actions, i);
    assert CallIsSound(states[i], states[i].calls[states[i].owner.value]);
  }

  /** A step of the lock: it is taken or given back. */
  predicate OfLock(a: Action) {
    a.Acquire? || a.Release?
  }

  /** As long as some call waits, the lock can be taken or given back: no caller is stuck behind it. */
  lemma CallersGoOn(states: seq<State>, actions: seq<Action>, i: nat) returns (a: Action)
    requires Run(states, actions) && i < |states| && states[i].calls != map[]
    ensures OfLock(a) && Enabled(states[i], a)
  {
    var s := states[i];
    if s.owner.Some? {
      OwnerCanRelease(states, actions, i, s.group);
      a := Release(s.owner.value);
    } else {
      var id :| id in s.calls;
      a := Acquire(id);
    }
  }

  // ----- progress with the lock -----

  predicate Advances(a: Action) {
    match a
    case Request(_, _) => false
    case Group(b) => SupervisorTheorems.Advances(b)
    case _ => true
  }

  function Measure(s: State): nat {
    SupervisorTheorems.Measure(s.group) + 2 * |s.calls| + One(s.owner.None?)
  }

  /** Only a new call raises the measure, by two; every other step of the lock, the actor or a task lowers it. */
  lemma MeasureDecreases(s: State, a: Action)
    requires Inv(s) && s.group.closed && Enabled(s, a)
    ensures Measure(Apply(s, a)) + One(Advances(a)) <= Measure(s) + 2 * One(a.Request?)
    ensures Apply(s, a).group.closed
  {
    match a {
      case Group(b) =>
        hide Supervisor.Enabled, Supervisor.Apply;
        SupervisorTheorems.MeasureDecreases(s.group, b);
        StaysClosed(s.group, b);
      case Release(id) =>
        hide Supervisor.Enabled, Supervisor.Apply;
        SupervisorTheorems.MeasureDecreases(s.group, Section(s.calls[id]));
        StaysClosed(s.group, Section(s.calls[id]));
        assert |s.calls - {id}| == |s.calls| - 1;
      case Request(id, call) =>
        assert |s.calls[id := call]| == |s.calls| + 1;
      case DropCall(id) =>
        assert |s.calls - {id}| == |s.calls| - 1;
      case Acquire(_) =>
    }
  }

  lemma StaysClosed(g: Supervisor.State, b: Supervisor.Action)
    requires g.closed && Supervisor.Enabled(g, b)
    ensures Supervisor.Apply(g, b).closed
  {
  }

  function Advancing(actions: seq<Action>): (marks: seq<bool>)
    ensures |marks| == |actions| && forall k :: 0 <= k < |actions| ==> marks[k] == Advances(actions[k])
  {
    seq(|actions|, k requires 0 <= k < |actions| => Advances(actions[k]))
  }

  function Requesting(actions: seq<Action>): (marks: seq<bool>)
    ensures |marks| == |actions| && forall k :: 0 <= k < |actions| ==> marks[k] == actions[k].Request?
  {
    seq(|actions|, k requires 0 <= k < |actions| => actions[k].Request?)
  }

  lemma {:induction false} ClosedForGood(states: seq<State>, actions: seq<Action>, i: nat, j: nat)
    requires Run(states, actions) && i <= j < |states| && states[i].group.closed
    ensures states[j].group.closed
    decreases j
  {
    if i < j {
      ClosedForGood(states, actions, i, j - 1);
      MeasureAt(states, actions, j - 1);
    }
  }

  lemma MeasureAt(states: seq<State>, actions: seq<Action>, k: nat)
    requires Run(states, actions) && k < |actions| && states[k].group.closed
    ensures Measure(states[k + 1]) + One(Advances(actions[k])) <= Measure(states[k]) + 2 * One(actions[k].Request?)
    ensures states[k + 1].group.closed
  {
    ReachableInv(states, actions, k);
    StepAt(states, actions, k);
    hide *;
    MeasureDecreases(states[k], actions[k]);
  }

  /** A closed group has at most Measure advancing steps left, and two more for every call still made. */
  lemma DrainingIsBounded(states: seq<State>, actions: seq<Action>, i: nat, j: nat)
    requires Run(states, actions) && i <= j < |states| && states[i].group.closed
    ensures Count(Advancing(actions), i, j) + Measure(states[j])
            <= Measure(states[i]) + 2 * Count(Requesting(actions), i, j)
  {
    var measures := seq(|states|, k requires 0 <= k < |states| => Measure(states[k]));
    assert |states| == |actions| + 1;
    hide Measure, Advances;
    forall k | i <= k < j
      ensures measures[k + 1] + One(Advances(actions[k])) <= measures[k] + 2 * One(actions[k].Request?)
    {
      ClosedForGood(states, actions, i, k);
      MeasureAt(states, actions, k);
    }
    Telescope(measures, Advancing(actions), Requesting(actions), i, j);
  }

  /**
   As long as a close has not been dealt with some advancing step is possible, even if every running
   child waits for the lock.  The end of a child is waited for only once it has been aborted, and then it
   neither holds the lock nor waits for it.
   */
  lemma ClosingNeverSticks(states: seq<State>, actions: seq<Action>, i: nat) returns (a: Action)
    requires Run(states, actions) && i < |states|
    requires states[i].group.closer == Supervisor.HoldsSender || Supervisor.ShutdownPending(states[i].group)
    ensures Advances(a) && Enabled(states[i], a)
    ensures a.Group? && a.a.End? ==> IsAborted(states[i], a.a.task) && states[i].calls == map[]
  {
    ReachableInv(states, actions, i);
    if states[i].calls != map[] {
      a := CallersGoOn(states, actions, i);
    } else {
      var b := SupervisorTheorems.ClosingNeverSticks(states[i].group);
      a := Group(b);
    }
  }
}
