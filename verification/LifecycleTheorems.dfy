/** What startup, readiness and shutdown promise over whole runs, and where the promise ends. */
module LifecycleTheorems {
  import opened Lifecycle

  // ----- readiness -----

  /** Whenever the application is ready, every enabled listener of the latest start has bound its socket. */
  lemma ReadyMeansAllBound(enabled: nat, states: seq<State>, actions: seq<Action>, i: nat)
    requires Run(enabled, states, actions) && i < |states| && states[i].ready
    ensures |states[i].current| == enabled && AllBound(states[i], states[i].current)
    ensures forall k :: 0 <= k < enabled ==>
              var l := states[i].current[k]; l < |states[i].listeners| && states[i].listeners[l].report == Bound
  {
    ReachableInv(enabled, states, actions, i);
  }

  /** Only the last step of a successful start makes it ready. */
  lemma OnlyPublishSetsReady(s: State, a: Action)
    requires Enabled(s, a)
    ensures !s.ready && Apply(s, a).ready ==> a == Publish && Apply(s, a).outcome == Ok
  {
  }

  /** The steps between which only listeners ran: a check that found `failed` clear, then Publish. */
  lemma {:induction false} PublishFollowsCleanCheck(
    enabled: nat, states: seq<State>, actions: seq<Action>, i: nat) returns (c: nat)
    requires Run(enabled, states, actions) && i < |states| && states[i].main == Publishing
    ensures c < i && actions[c] == Check && !states[c].failed
    ensures |states[c].current| == enabled && AllBound(states[c], states[c].current)
    ensures forall m :: c < m < i ==> OfListener(actions[m])
    decreases i
  {
    PublishingAt(enabled, states, actions, i);
    hide *;
    if actions[i - 1] == Check {
      c := i - 1;
    } else {
      c := PublishFollowsCleanCheck(enabled, states, actions, i - 1);
    }
  }

  lemma PublishingAt(enabled: nat, states: seq<State>, actions: seq<Action>, i: nat)
    requires Run(enabled, states, actions) && i < |states| && states[i].main == Publishing
    ensures 0 < i <= |actions|
    ensures if actions[i - 1] == Check
            then !states[i - 1].failed && |states[i - 1].current| == enabled && AllBound(states[i - 1], states[i - 1].current)
            else states[i - 1].main == Publishing && OfListener(actions[i - 1])
  {
    assert |states| == |actions| + 1 && i > 0;
    StepAt(enabled, states, actions, i - 1);
    ReachableInv(enabled, states, actions, i - 1);
    EntersPublishing(states[i - 1], actions[i - 1]);
    hide Run, Enabled, Apply, AllBound, Tracked, Flags;
  }

  lemma EntersPublishing(s: State, a: Action)
    requires Enabled(s, a) && Apply(s, a).main == Publishing
    ensures if a == Check then s.main == Checking && !s.failed else s.main == Publishing && OfListener(a)
  {
  }

  /** Whenever the application is ready, a start made it so and nobody has cleared it since. */
  lemma {:induction false} ReadyWasPublished(
    enabled: nat, states: seq<State>, actions: seq<Action>, j: nat) returns (i: nat)
    requires Run(enabled, states, actions) && j < |states| && states[j].ready
    ensures i < j && actions[i] == Publish
    ensures forall m :: i < m <= j ==> states[m].ready
    decreases j
  {
    assert |states| == |actions| + 1 && j > 0;
    StepAt(enabled, states, actions, j - 1);
    OnlyPublishSetsReady(states[j - 1], actions[j - 1]);
    hide Enabled, Apply, Step;
    if actions[j - 1] == Publish {
      i := j - 1;
    } else {
      i := ReadyWasPublished(enabled, states, actions, j - 1);
    }
  }

  lemma PublishIsEnabled(s: State)
    requires Enabled(s, Publish)
    ensures s.main == Publishing
  {
  }

  /**
   Readiness over whole runs: whenever the application is ready, some start found all its listeners
   bound and `failed` clear at its check, then only listeners took steps until it set `ready`, and
   `ready` has been set ever since.
   */
  lemma ReadyWasChecked(enabled: nat, states: seq<State>, actions: seq<Action>, j: nat) returns (c: nat, i: nat)
    requires Run(enabled, states, actions) && j < |states| && states[j].ready
    ensures c < i < j && actions[c] == Check && actions[i] == Publish && !states[c].failed
    ensures |states[c].current| == enabled && AllBound(states[c], states[c].current)
    ensures forall m :: c < m < i ==> OfListener(actions[m])
    ensures forall m :: i < m <= j ==> states[m].ready
  {
    i := ReadyWasPublished(enabled, states, actions, j);
    StepAt(enabled, states, actions, i);
    PublishIsEnabled(states[i]);
    hide Enabled, Apply, AllBound;
    c := PublishFollowsCleanCheck(enabled, states, actions, i);
  }

  // ----- failures before the check -----

  predicate BeforeCheck(main: Main) {
    main.Spawning? || main.Awaiting? || main == Checking
  }

  /** A readiness channel that will not yield a success. */
  ghost predicate HasBadReport(s: State, ids: seq<nat>) {
    exists i :: 0 <= i < |ids| && IsBad(s, ids[i])
  }

  /** Before the check of a start, some listener has failed or will not report a success. */
  ghost predicate Unhealthy(s: State) {
    BeforeCheck(s.main) && (s.failed || HasBadReport(s, s.current))
  }

  predicate ShuttingDownAfterError(main: Main) {
    (main.Unreadying? || main.Cancelling? || main.Closing? || main.Joining?) && main.failing
  }

  predicate IsCall(a: Action) {
    a == CallStart || a == CallShutdown || a == RefuseConfig
  }

  predicate FailedStart(s: State) {
    s.main == Idle && s.outcome == Err && !s.ready
  }

  /** This start can no longer succeed, or has failed. */
  ghost predicate Sealed(s: State) {
    Unhealthy(s) || ShuttingDownAfterError(s.main) || FailedStart(s)
  }

  predicate IsBad(s: State, l: nat) {
    l < |s.listeners| && (s.listeners[l].report == Refused || s.listeners[l].report == Lost)
  }

  lemma IsBadStays(s: State, a: Action, l: nat)
    requires Enabled(s, a) && IsBad(s, l)
    ensures IsBad(Apply(s, a), l)
  {
  }

  lemma CurrentStays(s: State, a: Action)
    requires Enabled(s, a) && a != ResetFailed
    ensures s.current <= Apply(s, a).current
  {
  }

  /** A bad report stays bad, and stays in the latest start. */
  lemma BadReportStays(s: State, a: Action)
    requires Enabled(s, a) && a != ResetFailed && HasBadReport(s, s.current)
    ensures HasBadReport(Apply(s, a), Apply(s, a).current)
  {
    var i :| 0 <= i < |s.current| && IsBad(s, s.current[i]);
    IsBadStays(s, a, s.current[i]);
    CurrentStays(s, a);
    hide Enabled, Apply, IsBad;
    assert Apply(s, a).current[i] == s.current[i];
  }

  lemma BoundIsNotBad(s: State)
    requires AllBound(s, s.current)
    ensures !HasBadReport(s, s.current)
  {
  }

  lemma SealedStep(s: State, a: Action)
    requires Inv(s) && Enabled(s, a) && Sealed(s) && !IsCall(a)
    ensures Sealed(Apply(s, a))
  {
    if Unhealthy(s) && !s.failed {
      BadReportStays(s, a);
      if s.main == Checking {
        BoundIsNotBad(s);
      }
      hide HasBadReport, AllBound;
      if a.ReadReport? && s.main.rest == [] {
        assert s.current[..|s.current|] == s.current;
        BoundIsNotBad(s);
      }
    }
    hide Tracked, Established, HasBadReport;
  }

  /**
   A failure recorded before the check, or a listener that will not report a success, makes this start
   return an error and leaves the application not ready until the next call.
   */
  lemma {:induction false} EarlyFailureFailsStart(
    enabled: nat, states: seq<State>, actions: seq<Action>, i: nat, j: nat)
    requires Run(enabled, states, actions) && i <= j < |states|
    requires Sealed(states[i])
    requires forall m :: i <= m < j ==> !IsCall(actions[m])
    ensures Sealed(states[j])
    ensures states[j].main == Idle ==> states[j].outcome == Err && !states[j].ready
    decreases j
  {
    if i < j {
      EarlyFailureFailsStart(enabled, states, actions, i, j - 1);
      hide *;
      SealedAt(enabled, states, actions, j - 1);
    } else {
      SealedWhenIdle(states[i]);
      hide *;
    }
  }

  lemma SealedAt(enabled: nat, states: seq<State>, actions: seq<Action>, k: nat)
    requires Run(enabled, states, actions) && k < |actions| && Sealed(states[k]) && !IsCall(actions[k])
    ensures Sealed(states[k + 1])
    ensures states[k + 1].main == Idle ==> states[k + 1].outcome == Err && !states[k + 1].ready
  {
    ReachableInv(enabled, states, actions, k);
    StepAt(enabled, states, actions, k);
    hide *;
    SealedStep(states[k], actions[k]);
    SealedWhenIdle(states[k + 1]);
  }

  lemma SealedWhenIdle(s: State)
    requires Sealed(s)
    ensures s.main == Idle ==> s.outcome == Err && !s.ready
  {
  }

  /** A start turns to failure only where it is unhealthy. */
  lemma FailsOnlyIfUnhealthy(s: State, a: Action)
    requires Inv(s) && Enabled(s, a) && !ShuttingDownAfterError(s.main)
    requires ShuttingDownAfterError(Apply(s, a).main)
    ensures Unhealthy(s)
  {
    if a.ReadReport? {
      var rest := s.main.rest;
      assert s.current[|s.current| - |rest|] == rest[0];
      assert s.listeners[rest[0]].report != Bound;
    }
  }

  /** Between the calls of start and shutdown, a failing start was unhealthy at some point. */
  lemma {:induction false} FailureHasCause(
    enabled: nat, states: seq<State>, actions: seq<Action>, i: nat, j: nat) returns (m: nat)
    requires Run(enabled, states, actions) && i <= j < |states|
    requires !ShuttingDownAfterError(states[i].main) && ShuttingDownAfterError(states[j].main)
    ensures i <= m < j && Unhealthy(states[m])
    decreases j
  {
    StepAt(enabled, states, actions, j - 1);
    if ShuttingDownAfterError(states[j - 1].main) {
      m := FailureHasCause(enabled, states, actions, i, j - 1);
    } else {
      ReachableInv(enabled, states, actions, j - 1);
      hide Run, Inv, Enabled, Apply;
      FailsOnlyIfUnhealthy(states[j - 1], actions[j - 1]);
      m := j - 1;
    }
  }

  // ----- failures after the check -----

  /** The listener has returned an error that is recorded sooner or later, or is being recorded. */
  predicate IsFailing(listener: Listener, cancelled: bool) {
    listener.life == RecordingFailure || listener.life == ClearingReady || (listener.life == Erring && !cancelled)
  }

  ghost predicate SomeFailing(s: State) {
    exists l :: 0 <= l < |s.listeners| && IsFailing(s.listeners[l], s.cancelled)
  }

  /** A listener returns an error while shutdown has never been called. */
  predicate FailsUncancelled(s: State, a: Action) {
    a.ReturnErr? && !s.cancelled
  }

  ghost predicate FailureSince(states: seq<State>, actions: seq<Action>, i: nat, j: nat)
    requires i < j < |states| && |states| == |actions| + 1
  {
    exists m :: i < m < j && FailsUncancelled(states[m], actions[m])
  }

  lemma FailureSinceNext(states: seq<State>, actions: seq<Action>, i: nat, j: nat)
    requires i <= j < |actions| && |states| == |actions| + 1
    ensures if i == j then !FailureSince(states, actions, i, j + 1)
            else FailureSince(states, actions, i, j + 1)
                 <==> FailureSince(states, actions, i, j) || FailsUncancelled(states[j], actions[j])
  {
    hide FailsUncancelled;
  }

  /** `ready` is false or about to be cleared. */
  ghost predicate Unready(s: State) {
    !s.ready || SomeFailing(s)
  }

  lemma UnreadyStep(s: State, a: Action)
    requires Enabled(s, a) && s.main == Idle && !IsCall(a)
    ensures Apply(s, a).main == Idle && Apply(s, a).cancelled == s.cancelled
    ensures Unready(Apply(s, a)) <==> Unready(s) || FailsUncancelled(s, a)
  {
    var t := Apply(s, a);
    assert forall l :: 0 <= l < |s.listeners| && l != a.l ==> t.listeners[l] == s.listeners[l];
    if SomeFailing(s) {
      var l :| 0 <= l < |s.listeners| && IsFailing(s.listeners[l], s.cancelled);
      assert t.ready ==> IsFailing(t.listeners[l], t.cancelled);
    }
    if FailsUncancelled(s, a) {
      assert IsFailing(t.listeners[a.l], t.cancelled);
    }
  }

  /**
   After a successful start, and until the next call of start or shutdown, `ready` is or is about to be
   false exactly if some listener was failing when the start set it, or some listener has returned an
   error since and shutdown was never called before.
   */
  lemma {:induction false} ReadyUntilListenerFails(
    enabled: nat, states: seq<State>, actions: seq<Action>, i: nat, j: nat)
    requires Run(enabled, states, actions) && i < |actions| && i < j < |states| && actions[i] == Publish
    requires forall m :: i < m < j ==> !IsCall(actions[m])
    ensures states[j].main == Idle && states[j].cancelled == states[i].cancelled
    ensures Unready(states[j])
            <==> SomeFailing(states[i]) || FailureSince(states, actions, i, j)
    decreases j
  {
    assert |states| == |actions| + 1;
    FailureSinceNext(states, actions, i, j - 1);
    if i + 1 < j {
      hide *;
      ReadyUntilListenerFails(enabled, states, actions, i, j - 1);
      UnreadyAt(enabled, states, actions, j - 1);
    } else {
      StepAt(enabled, states, actions, i);
      hide *;
      PublishStep(states[i]);
    }
  }

  lemma UnreadyAt(enabled: nat, states: seq<State>, actions: seq<Action>, k: nat)
    requires Run(enabled, states, actions) && k < |actions| && states[k].main == Idle && !IsCall(actions[k])
    ensures states[k + 1].main == Idle && states[k + 1].cancelled == states[k].cancelled
    ensures Unready(states[k + 1]) <==> Unready(states[k]) || FailsUncancelled(states[k], actions[k])
  {
    StepAt(enabled, states, actions, k);
    hide *;
    UnreadyStep(states[k], actions[k]);
  }

  lemma PublishStep(s: State)
    requires Enabled(s, Publish)
    ensures var t := Apply(s, Publish);
            t.main == Idle && t.cancelled == s.cancelled && (Unready(t) <==> SomeFailing(s))
  {
    assert SomeFailing(Apply(s, Publish)) <==> SomeFailing(s);
  }

  /** The cancellation token is never renewed: it survives into every later start. */
  lemma {:induction false} CancelledForGood(enabled: nat, states: seq<State>, actions: seq<Action>, i: nat, j: nat)
    requires Run(enabled, states, actions) && i <= j < |states| && states[i].cancelled
    ensures states[j].cancelled
    decreases j
  {
    if i < j {
      CancelledForGood(enabled, states, actions, i, j - 1);
      StepAt(enabled, states, actions, j - 1);
    }
  }

  lemma QuietStep(s: State, a: Action)
    requires Enabled(s, a) && s.cancelled && !SomeFailing(s)
    ensures Apply(s, a).cancelled && !SomeFailing(Apply(s, a))
    ensures Apply(s, a).failed ==> s.failed
    ensures s.ready && !Apply(s, a).ready ==> a == CallStart || a == ClearReady
  {
    var t := Apply(s, a);
    forall l | 0 <= l < |t.listeners| ensures !IsFailing(t.listeners[l], t.cancelled) {
      assert l < |s.listeners| ==> !IsFailing(s.listeners[l], s.cancelled);
    }
  }

  /**
   Once shutdown has cancelled and no listener is in the middle of recording a failure, no failure is
   ever recorded again, in no later start: `failed` is never set, and only the caller clears `ready`.
   */
  lemma {:induction false} NothingIsRecordedAfterShutdown(
    enabled: nat, states: seq<State>, actions: seq<Action>, i: nat, j: nat)
    requires Run(enabled, states, actions) && i <= j < |states| && states[i].cancelled && !SomeFailing(states[i])
    ensures states[j].cancelled && !SomeFailing(states[j])
    ensures states[j].failed ==> states[i].failed
    ensures (forall m :: i <= m < j ==> actions[m] != CallStart && actions[m] != ClearReady)
            ==> states[i].ready ==> states[j].ready
    decreases j
  {
    if i < j {
      NothingIsRecordedAfterShutdown(enabled, states, actions, i, j - 1);
      StepAt(enabled, states, actions, j - 1);
      hide Run, Enabled, Apply, SomeFailing;
      QuietStep(states[j - 1], actions[j - 1]);
    }
  }

  function OneBound(main: Main, life: Life, ready: bool, failed: bool): State {
    State(1, main, ready, failed, false, [Listener(Bound, life)], [0], [0], [0], if main == Idle then Ok else NotStarted)
  }

  lemma Extend(enabled: nat, states: seq<State>, actions: seq<Action>, a: Action, t: State)
    requires Run(enabled, states, actions) && Step(states[|actions|], a, t)
    ensures Run(enabled, states + [t], actions + [a])
  {
    hide Step;
    var more := states + [t];
    forall i | 0 <= i < |actions| + 1 ensures Step(more[i], (actions + [a])[i], more[i + 1]) {
      if i < |actions| {
        assert Step(states[i], actions[i], states[i + 1]);
      }
    }
  }

  lemma Grow(enabled: nat, states: seq<State>, actions: seq<Action>, a: Action, t: State)
    returns (more: seq<State>, acts: seq<Action>)
    requires Run(enabled, states, actions) && Step(states[|actions|], a, t)
    ensures Run(enabled, more, acts) && acts == actions + [a] && |more| == |acts| + 1 && more[|acts|] == t
  {
    Extend(enabled, states, actions, a, t);
    more, acts := states + [t], actions + [a];
  }

  lemma OneListenerSpawned() returns (states: seq<State>, actions: seq<Action>)
    ensures Run(1, states, actions) && |actions| == 4
    ensures states[4] == OneBound(Awaiting([0]), Running, false, false).(listeners := [Listener(Pending, Running)])
  {
    states, actions := [Init(1)], [];
    assert Run(1, states, actions);
    hide Run;
    var s1 := Init(1).(main := Resetting);
    states, actions := Grow(1, states, actions, CallStart, s1);
    var s2 := s1.(main := Spawning(1));
    states, actions := Grow(1, states, actions, ResetFailed, s2);
    var s3 := State(1, Spawning(0), false, false, false, [Listener(Pending, Running)], [0], [0], [0], NotStarted);
    states, actions := Grow(1, states, actions, SpawnListener, s3);
    states, actions := Grow(1, states, actions, SpawnListener, s3.(main := Awaiting([0])));
  }

  /** The common start of the two runs below, with a single enabled listener. */
  lemma OneListenerChecked() returns (states: seq<State>, actions: seq<Action>)
    ensures Run(1, states, actions) && |actions| == 8
    ensures states[8] == OneBound(Publishing, Running, false, false)
  {
    states, actions := OneListenerSpawned();
    hide Run;
    states, actions := Grow(1, states, actions, SendReport(0, true), OneBound(Awaiting([0]), Running, false, false));
    assert [0][1..] == [];
    states, actions := Grow(1, states, actions, ReadReport, OneBound(Awaiting([]), Running, false, false));
    states, actions := Grow(1, states, actions, ReadReport, OneBound(Checking, Running, false, false));
    states, actions := Grow(1, states, actions, Check, OneBound(Publishing, Running, false, false));
  }

  lemma FailureRecording() returns (states: seq<State>, actions: seq<Action>)
    ensures Run(1, states, actions) && |states| == |actions| + 1
    ensures states[|actions|] == OneBound(Publishing, RecordingFailure, false, false)
  {
    states, actions := OneListenerChecked();
    hide Run;
    states, actions := Grow(1, states, actions, ReturnErr(0), OneBound(Publishing, Erring, false, false));
    states, actions := Grow(1, states, actions, TestToken(0), OneBound(Publishing, RecordingFailure, false, false));
  }

  /** A listener that fails between the check and Publish leaves the application ready, for good. */
  lemma FailureInTheWindowIsLost() returns (states: seq<State>, actions: seq<Action>)
    ensures Run(1, states, actions) && |states| > 0
    ensures var s := states[|actions|];
            s.ready && s.failed && s.main == Idle && s.outcome == Ok && s.listeners == [Listener(Bound, Done)]
  {
    states, actions := FailureRecording();
    hide Run;
    states, actions := Grow(1, states, actions, StoreFailed(0), OneBound(Publishing, ClearingReady, false, true));
    states, actions := Grow(1, states, actions, StoreUnready(0), OneBound(Publishing, Done, false, true));
    states, actions := Grow(1, states, actions, Publish, OneBound(Idle, Done, true, true));
  }

  /** So does one that returns early without an error: ready, with nothing listening. */
  lemma QuietExitLeavesReady() returns (states: seq<State>, actions: seq<Action>)
    ensures Run(1, states, actions) && |states| > 0
    ensures var s := states[|actions|];
            s.ready && !s.failed && !s.cancelled && s.main == Idle && s.listeners == [Listener(Bound, Done)]
  {
    states, actions := OneListenerChecked();
    hide Run;
    states, actions := Grow(1, states, actions, Publish, OneBound(Idle, Running, true, false));
    states, actions := Grow(1, states, actions, ReturnOk(0), OneBound(Idle, Done, true, false));
  }

  /** A start after a shutdown, with a second listener; the first one was stopped. */
  function Restarted(main: Main, second: Listener, ready: bool): State {
    State(1, main, ready, false, true, [Listener(Bound, Done), second], [1], [1], [1], Ok)
  }

  lemma StoppedOnce() returns (states: seq<State>, actions: seq<Action>)
    ensures Run(1, states, actions) && |states| == |actions| + 1
    ensures states[|actions|] == State(1, Idle, false, false, true, [Listener(Bound, Done)], [0], [], [], Ok)
  {
    states, actions := OneListenerChecked();
    hide Run;
    var up := OneBound(Idle, Running, true, false);
    states, actions := Grow(1, states, actions, Publish, up);
    states, actions := Grow(1, states, actions, CallShutdown, up.(main := Unreadying(false)));
    var s1 := up.(main := Cancelling(false), ready := false);
    states, actions := Grow(1, states, actions, ClearReady, s1);
    var s2 := s1.(main := Closing(false), cancelled := true);
    states, actions := Grow(1, states, actions, Cancel, s2);
    var s3 := s2.(main := Joining(false), groups := []);
    states, actions := Grow(1, states, actions, CloseGroups, s3);
    var s4 := s3.(listeners := [Listener(Bound, Done)]);
    states, actions := Grow(1, states, actions, AbortHandle, s4);
    assert [0][1..] == [];
    states, actions := Grow(1, states, actions, JoinHandle, s4.(handles := []));
    states, actions := Grow(1, states, actions, FinishShutdown, s4.(main := Idle, handles := []));
  }

  lemma StartedAgain() returns (states: seq<State>, actions: seq<Action>)
    ensures Run(1, states, actions) && |states| == |actions| + 1
    ensures states[|actions|] == Restarted(Awaiting([1]), Listener(Pending, Running), false)
  {
    states, actions := StoppedOnce();
    hide Run;
    var s0 := states[|actions|];
    states, actions := Grow(1, states, actions, CallStart, s0.(main := Resetting));
    states, actions := Grow(1, states, actions, ResetFailed, s0.(main := Spawning(1), current := []));
    var fresh1 := Listener(Pending, Running);
    states, actions := Grow(1, states, actions, SpawnListener, Restarted(Spawning(0), fresh1, false));
    states, actions := Grow(1, states, actions, SpawnListener, Restarted(Awaiting([1]), fresh1, false));
  }

  /** A listener that fails in a start after a shutdown leaves the application ready, and `failed` clear. */
  lemma FailureAfterRestartIsLost() returns (states: seq<State>, actions: seq<Action>)
    ensures Run(1, states, actions) && |states| == |actions| + 1
    ensures states[|actions|] == Restarted(Idle, Listener(Bound, Done), true)
    ensures |actions| > 1 && actions[|actions| - 2..] == [ReturnErr(1), TestToken(1)]
  {
    states, actions := StartedAgain();
    hide Run;
    var bound := Listener(Bound, Running);
    states, actions := Grow(1, states, actions, SendReport(1, true), Restarted(Awaiting([1]), bound, false));
    assert [1][1..] == [];
    states, actions := Grow(1, states, actions, ReadReport, Restarted(Awaiting([]), bound, false));
    states, actions := Grow(1, states, actions, ReadReport, Restarted(Checking, bound, false));
    states, actions := Grow(1, states, actions, Check, Restarted(Publishing, bound, false));
    states, actions := Grow(1, states, actions, Publish, Restarted(Idle, bound, true));
    states, actions := Grow(1, states, actions, ReturnErr(1), Restarted(Idle, Listener(Bound, Erring), true));
    states, actions := Grow(1, states, actions, TestToken(1), Restarted(Idle, Listener(Bound, Done), true));
  }

  // ----- shutdown -----

  ghost predicate AllDone(s: State) {
    forall l :: 0 <= l < |s.listeners| ==> s.listeners[l].life == Done
  }

  /** Nothing runs, nothing is tracked, and the application is not ready. */
  ghost predicate Stopped(s: State) {
    && !s.ready && s.cancelled && s.handles == [] && s.groups == [] && AllDone(s)
    && (s.main == Idle || s.main.Unreadying? || s.main.Cancelling? || s.main.Closing? || s.main.Joining?)
  }

  /** Shutdown ends with every listener it tracked joined. */
  lemma ShutdownStopsEverything(enabled: nat, states: seq<State>, actions: seq<Action>, i: nat)
    requires Run(enabled, states, actions) && i < |actions| && actions[i] == FinishShutdown
    ensures Stopped(states[i + 1])
    ensures var s := states[i + 1];
            && !s.ready && s.cancelled && s.main == Idle && s.handles == [] && s.groups == []
            && forall l :: 0 <= l < |s.listeners| ==> s.listeners[l].life == Done
  {
    ReachableInv(enabled, states, actions, i);
    StepAt(enabled, states, actions, i);
  }

  /** After a shutdown the application stays stopped and not ready until start is called again. */
  lemma {:induction false} StoppedUntilStart(enabled: nat, states: seq<State>, actions: seq<Action>, i: nat, j: nat)
    requires Run(enabled, states, actions) && i <= j < |states| && Stopped(states[i])
    requires forall m :: i <= m < j ==> actions[m] != CallStart
    ensures Stopped(states[j])
    decreases j
  {
    if i < j {
      StoppedUntilStart(enabled, states, actions, i, j - 1);
      StepAt(enabled, states, actions, j - 1);
    }
  }

  // ----- shutdown terminates -----

  predicate ShuttingDown(main: Main) {
    main.Unreadying? || main.Cancelling? || main.Closing? || main.Joining?
  }

  function LifeRank(listener: Listener): nat {
    match listener.life
    case Running => if listener.report == Pending then 5 else 4
    case Erring => 3
    case RecordingFailure => 2
    case ClearingReady => 1
    case Done => 0
  }

  function Work(listeners: seq<Listener>): nat {
    if listeners == [] then 0 else LifeRank(listeners[0]) + Work(listeners[1..])
  }

  lemma {:induction false} WorkAfterUpdate(listeners: seq<Listener>, l: nat, listener: Listener)
    requires l < |listeners|
    ensures Work(listeners[l := listener]) == Work(listeners) - LifeRank(listeners[l]) + LifeRank(listener)
  {
    if l > 0 {
      WorkAfterUpdate(listeners[1..], l - 1, listener);
      assert listeners[l := listener][1..] == listeners[1..][l - 1 := listener];
    } else {
      assert listeners[0 := listener][1..] == listeners[1..];
    }
  }

  function MainRank(main: Main): nat {
    match main
    case Unreadying(_) => 3
    case Cancelling(_) => 2
    case Closing(_) => 1
    case _ => 0
  }

  function ShutdownMeasure(s: State): nat {
    Work(s.listeners) + |s.handles| + MainRank(s.main)
  }

  /** During shutdown every step, the caller's or a listener's, lowers the measure or ends the shutdown. */
  lemma ShutdownDecreases(s: State, a: Action)
    requires Enabled(s, a) && ShuttingDown(s.main)
    ensures var t := Apply(s, a);
            if a == FinishShutdown then t.main == Idle
            else ShuttingDown(t.main) && ShutdownMeasure(t) < ShutdownMeasure(s)
  {
    if OfListener(a) || a.AbortHandle? {
      var t, l := Apply(s, a), Subject(s, a);
      assert t.listeners == s.listeners[l := t.listeners[l]];
      WorkAfterUpdate(s.listeners, l, t.listeners[l]);
    }
  }

  /** And one of them is always possible: a late handle is aborted, a failing one finishes by itself. */
  lemma ShutdownNeverSticks(s: State) returns (a: Action)
    requires Inv(s) && ShuttingDown(s.main)
    ensures Enabled(s, a)
    ensures a == FinishShutdown || a == JoinHandle || a == AbortHandle || a.TestToken? || a.StoreFailed? || a.StoreUnready?
            || a == ClearReady || a == Cancel || a == CloseGroups
  {
    match s.main {
      case Unreadying(_) => a := ClearReady;
      case Cancelling(_) => a := Cancel;
      case Closing(_) => a := CloseGroups;
      case Joining(_) =>
        if s.handles == [] {
          a := FinishShutdown;
        } else {
          var h := s.handles[0];
          match s.listeners[h].life {
            case Running => a := AbortHandle;
            case Erring => a := TestToken(h);
            case RecordingFailure => a := StoreFailed(h);
            case ClearingReady => a := StoreUnready(h);
            case Done => a := JoinHandle;
          }
        }
    }
  }
}
