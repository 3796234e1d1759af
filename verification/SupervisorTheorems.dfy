/** What the supervisor promises its callers, over every run. */
module SupervisorTheorems {
  import opened Counting
  import opened Supervisor

  /** Every task the group accepted has ended and been joined, and nothing waits in the queue. */
  ghost predicate Drained(s: State) {
    s.joined == s.accepted && s.live == {} && s.queue == [] && s.tasks == {}
  }

  // ----- completeness -----

  lemma CompletedIsDrained(s: State)
    requires Inv(s)
    ensures s.completed ==> Drained(s) && (s.closer == Released || s.closer == Abandoned)
    ensures s.actor == Draining ==> s.closed
  {
    assert Queued([]) == {};
  }

  /** When `completed` fires, every accepted task has ended and been joined. */
  lemma CompletedMeansDrained(states: seq<State>, actions: seq<Action>, i: nat)
    requires Run(states, actions) && i < |states|
    ensures states[i].completed ==>
              && Drained(states[i])
              && states[i].joined == states[i].accepted && states[i].live == {}
              && states[i].queue == [] && states[i].tasks == {}
  {
    ReachableInv(states, actions, i);
    CompletedIsDrained(states[i]);
  }

  /** Once closed, a group stays closed and accepts nothing more. */
  lemma {:induction false} ClosedAcceptsNothing(states: seq<State>, actions: seq<Action>, i: nat, j: nat)
    requires Run(states, actions) && i <= j < |states| && states[i].closed
    ensures states[j].closed && states[j].accepted == states[i].accepted
    decreases j
  {
    if i < j {
      ClosedAcceptsNothing(states, actions, i, j - 1);
      StepAt(states, actions, j - 1);
    }
  }

  /** Nothing the group accepted is ever forgotten. */
  lemma {:induction false} AcceptedForGood(states: seq<State>, actions: seq<Action>, i: nat, j: nat)
    requires Run(states, actions) && i <= j < |states|
    ensures states[i].accepted <= states[j].accepted
    decreases j
  {
    if i < j {
      AcceptedForGood(states, actions, i, j - 1);
      StepAt(states, actions, j - 1);
    }
  }

  /** A spawn is accepted exactly while the group is open, and an accepted task is joined by completion. */
  lemma NoAcceptedSpawnIsLost(states: seq<State>, actions: seq<Action>, i: nat, j: nat, task: nat)
    requires Run(states, actions) && i < |actions| && actions[i] == SpawnTask(task) && i < j < |states|
    ensures task in states[i + 1].accepted <==> !states[i].closed
    ensures !states[i].closed && states[j].completed ==> task in states[j].joined && task !in states[j].live
    ensures states[i].closed ==> task !in states[j].accepted && task !in states[j].live
  {
    StepAt(states, actions, i);
    AcceptedForGood(states, actions, i + 1, j);
    CompletedMeansDrained(states, actions, j);
    ReachableInv(states, actions, j);
    if states[i].closed {
      ClosedAcceptsNothing(states, actions, i, j);
    }
  }

  predicate HasSent(closer: Closer) {
    closer == Waiting || closer == Abandoned || closer == Released
  }

  lemma {:induction false} SentForGood(states: seq<State>, actions: seq<Action>, i: nat, j: nat)
    requires Run(states, actions) && i <= j < |states| && HasSent(states[i].closer) && states[i].closed
    ensures HasSent(states[j].closer) && states[j].closed
    decreases j
  {
    if i < j {
      SentForGood(states, actions, i, j - 1);
      StepAt(states, actions, j - 1);
    }
  }

  /** At most one Shutdown is ever sent. */
  lemma OneShutdown(states: seq<State>, actions: seq<Action>, i: nat, j: nat)
    requires Run(states, actions) && i < j < |actions| && actions[i] == SendShutdown
    ensures actions[j] != SendShutdown
  {
    StepAt(states, actions, i);
    ReachableInv(states, actions, i + 1);
    SentForGood(states, actions, i + 1, j);
    StepAt(states, actions, j);
  }

  /** When the actor receives Shutdown it has already started every task the group will ever accept. */
  lemma EverySpawnPrecedesShutdown(states: seq<State>, actions: seq<Action>, i: nat, j: nat)
    requires Run(states, actions) && i < |actions| && i < j < |states|
    requires actions[i] == Receive && states[i].queue != [] && states[i].queue[0] == Shutdown
    ensures states[i].queue == [Shutdown]
    ensures states[j].accepted == states[i].accepted == states[i].tasks + states[i].joined
  {
    ReachableInv(states, actions, i);
    StepAt(states, actions, i);
    var s := states[i];
    assert |s.queue| == 1 && Queued(s.queue) == {};
    ClosedAcceptsNothing(states, actions, i, j);
  }

  // ----- who may rely on close_and_wait_until -----

  /** The call of close_and_wait_until that starts at action `i` has returned by state `j`. */
  ghost predicate ReturnedBy(states: seq<State>, actions: seq<Action>, i: nat, j: nat)
    requires |states| == |actions| + 1
  {
    && i < |actions| && actions[i] == Flip && i < j < |states|
    && if states[i].closed then j == i + 1 else states[j].closer == Released
  }

  /**
   The caller that flips `closed` returns only when the group is drained.  Any other caller returns
   at once, so for it the group is drained exactly if it was when the call began.
   */
  lemma OnlyTheFirstCloserWaits(states: seq<State>, actions: seq<Action>, i: nat, j: nat)
    requires Run(states, actions) && ReturnedBy(states, actions, i, j)
    ensures Drained(states[j]) <==> !states[i].closed || Drained(states[i])
  {
    StepAt(states, actions, i);
    ReachableInv(states, actions, j);
    assert Queued([]) == {};
  }

  /** A run in which a second caller returns while a child is still running. */
  lemma SecondCloserDoesNotWait() returns (states: seq<State>, actions: seq<Action>)
    ensures Run(states, actions) && ReturnedBy(states, actions, 3, 4)
    ensures states[4].live == {0} && states[4].joined == {}
  {
    var s1 := INIT.(hasSender := true, actor := Serving, queue := [Spawn(0)], accepted := {0});
    var s2 := s1.(queue := [], tasks := {0}, live := {0});
    var s3 := s2.(closed := true, closer := HoldsSender);
    states, actions := [INIT, s1, s2, s3, s3], [SpawnTask(0), Receive, Flip, Flip];
    assert [Spawn(0)][1..] == [];
  }

  // ----- progress -----

  /** The steps by which a closing group gets done; the rest belong to its callers. */
  predicate Advances(a: Action) {
    match a
    case SendShutdown => true
    case Receive => true
    case End(_) => true
    case Join(_) => true
    case DeadlinePasses => true
    case Complete => true
    case _ => false
  }

  function PhaseRank(s: State): nat {
    (if s.closer == HoldsSender then 4 else 0) +
    (match s.actor case Draining => 2 case Aborting => 1 case _ => 0)
  }

  /** Queued commands weigh most: a received task joins both the JoinSet and the live tasks. */
  function Measure(s: State): nat {
    3 * |s.queue| + |s.tasks| + |s.live| + PhaseRank(s)
  }

  /** After closing, every step of the actor or of a task lowers the measure and no caller can raise it. */
  lemma MeasureDecreases(s: State, a: Action)
    requires Inv(s) && s.closed && Enabled(s, a)
    ensures if Advances(a) then Measure(Apply(s, a)) < Measure(s) else Measure(Apply(s, a)) == Measure(s)
  {
    hide Partition, Distinct, ShutdownLast;
    if !Advances(a) {
      CallersKeepMeasure(s, a);
    } else if a.Receive? {
      ReceiveDecreases(s);
    } else if a.End? || a.Join? {
      TaskDecreases(s, a);
    } else {
      assert Phases(s);
    }
  }

  lemma CallersKeepMeasure(s: State, a: Action)
    requires Phases(s) && s.closed && Enabled(s, a) && !Advances(a)
    ensures Measure(Apply(s, a)) == Measure(s)
  {
  }

  lemma TaskDecreases(s: State, a: Action)
    requires Enabled(s, a) && (a.End? || a.Join?)
    ensures Measure(Apply(s, a)) < Measure(s)
  {
  }

  lemma ReceiveDecreases(s: State)
    requires Enabled(s, Receive)
    ensures Measure(ReceiveNext(s)) < Measure(s)
  {
    if s.queue[0].Spawn? {
      var task := s.queue[0].task;
      assert |s.tasks + {task}| <= |s.tasks| + 1;
      assert |s.live + {task}| <= |s.live| + 1;
    }
  }

  /** Which steps of a run advance. */
  function Advancing(actions: seq<Action>): (marks: seq<bool>)
    ensures |marks| == |actions| && forall k :: 0 <= k < |actions| ==> marks[k] == Advances(actions[k])
  {
    seq(|actions|, k requires 0 <= k < |actions| => Advances(actions[k]))
  }

  /** These advancing steps lead from `s` to `t`. */
  ghost predicate Leads(s: State, actions: seq<Action>, t: State) {
    if actions == [] then s == t
    else
      var last := actions[|actions| - 1];
      Advances(last) && exists m :: Leads(s, actions[..|actions| - 1], m) && Step(m, last, t)
  }

  lemma LeadsOn(s: State, actions: seq<Action>, m: State, a: Action, t: State)
    requires Leads(s, actions, m) && Advances(a) && Step(m, a, t)
    ensures Leads(s, actions + [a], t)
  {
    assert (actions + [a])[..|actions|] == actions;
  }

  /** From any closed state, a run contains at most Measure advancing steps, whatever else interleaves. */
  lemma DrainingIsBounded(states: seq<State>, actions: seq<Action>, i: nat, j: nat)
    requires Run(states, actions) && i <= j < |states| && states[i].closed
    ensures Count(Advancing(actions), i, j) + Measure(states[j]) <= Measure(states[i])
  {
    var measures := seq(|states|, k requires 0 <= k < |states| => Measure(states[k]));
    var none := seq(|actions|, k => false);
    assert |states| == |actions| + 1;
    hide Measure, Advances;
    forall k | i <= k < j ensures measures[k + 1] + One(Advances(actions[k])) <= measures[k] {
      ClosedAcceptsNothing(states, actions, i, k);
      MeasureAt(states, actions, k);
    }
    CountNone(none, i, j);
    Telescope(measures, Advancing(actions), none, i, j);
  }

  lemma MeasureAt(states: seq<State>, actions: seq<Action>, k: nat)
    requires Run(states, actions) && k < |actions| && states[k].closed
    ensures Measure(states[k + 1]) + One(Advances(actions[k])) <= Measure(states[k])
  {
    ReachableInv(states, actions, k);
    StepAt(states, actions, k);
    hide *;
    MeasureDecreases(states[k], actions[k]);
  }

  /**
   As long as a close has not been dealt with some advancing step is possible, also when its caller is
   gone.  Only aborted tasks are ever waited for without bound.
   */
  lemma ClosingNeverSticks(s: State) returns (a: Action)
    requires Inv(s) && (s.closer == HoldsSender || ShutdownPending(s))
    ensures Advances(a) && Enabled(s, a)
    ensures a.End? ==> s.actor == Aborting && s.tasks != {} && s.tasks <= s.live
  {
    if s.closer == HoldsSender {
      a := SendShutdown;
    } else if s.actor == Serving {
      a := Receive;
    } else if s.tasks == {} {
      a := Complete;
    } else if task :| task in s.tasks && task !in s.live {
      a := Join(task);
    } else if s.actor == Draining {
      a := DeadlinePasses;
    } else {
      var task :| task in s.tasks;
      a := End(task);
    }
  }
}
