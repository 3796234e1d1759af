/**
 The application as an object.  `Start` and `Shutdown` are the caller's thread;
 between any two of its steps the listener tasks may take steps of their own,
 which `Interfere` stands for.  The object keeps its history, and every method
 extends it by actions of Lifecycle alone: whatever holds of every run of that
 machine holds of every sequence of calls.
 */
module Application {
  import opened Lifecycle
  import opened LifecycleTheorems

  /** The run so far, and in it the latest call: the state and the place it began at, and what was asked for. */
  datatype History = History(states: seq<State>, actions: seq<Action>, began: int, origin: State, request: Action)

  ghost predicate Records(h: History, s: State) {
    && Run(s.enabled, h.states, h.actions) && h.states[|h.actions|] == s
    && -1 <= h.began < |h.actions|
    && (h.began >= 0 ==> h.actions[h.began] == h.request && h.states[h.began] == h.origin)
    && forall m :: h.began < m < |h.actions| ==> !IsCall(h.actions[m])
  }

  function Longer(h: History, s: State, a: Action, t: State): History {
    History(h.states + [t], h.actions + [a],
            if IsCall(a) then |h.actions| else h.began, if IsCall(a) then s else h.origin, if IsCall(a) then a else h.request)
  }

  lemma RecordsLonger(h: History, s: State, a: Action, t: State)
    requires Records(h, s) && Step(s, a, t)
    ensures Records(Longer(h, s, a, t), t)
  {
    assert t.enabled == s.enabled;
    hide Step;
    Extend(s.enabled, h.states, h.actions, a, t);
  }

  /** An unhealthy moment of a call stays part of its longer history. */
  lemma UnhealthyLonger(h: History, s: State, a: Action, t: State)
    requires |h.states| == |h.actions| + 1 && EverUnhealthy(h) && !IsCall(a)
    ensures EverUnhealthy(Longer(h, s, a, t))
  {
    var m: nat :| h.began < m < |h.states| && Unhealthy(h.states[m]);
    assert Longer(h, s, a, t).states[m] == h.states[m];
  }

  lemma RecordsInv(h: History, s: State)
    requires Records(h, s)
    ensures Inv(s)
  {
    ReachableInv(s.enabled, h.states, h.actions, |h.actions|);
  }

  /** `k` goes on from `h` without a new call. */
  ghost predicate SameCall(h: History, k: History) {
    && k.began == h.began && k.origin == h.origin && k.request == h.request
    && (EverUnhealthy(h) ==> EverUnhealthy(k))
  }

  /** `k` goes on from `h`, which ended in `s`, with the one call `request`. */
  ghost predicate Answers(h: History, s: State, request: Action, k: History) {
    k.began == |h.actions| && k.origin == s && k.request == request
  }

  /** At some point of the latest call, before its check, the start was unhealthy. */
  ghost predicate EverUnhealthy(h: History) {
    exists m: nat :: h.began < m < |h.states| && Unhealthy(h.states[m])
  }

  lemma UnhealthyNow(h: History, s: State)
    requires Records(h, s) && Unhealthy(s)
    ensures EverUnhealthy(h)
  {
  }

  lemma UnhealthyFails(h: History, s: State)
    requires Records(h, s) && s.main == Idle && EverUnhealthy(h)
    ensures s.outcome == Err
  {
    var m: nat :| h.began < m < |h.states| && Unhealthy(h.states[m]);
    assert m < |h.actions|;
    EarlyFailureFailsStart(s.enabled, h.states, h.actions, m, |h.actions|);
  }

  /** What any number of listener steps can do: `ready` only falls, `failed` only rises, reports stay. */
  ghost predicate Interfered(s: State, t: State) {
    && t == s.(ready := t.ready, failed := t.failed, listeners := t.listeners)
    && (t.ready ==> s.ready) && (s.failed ==> t.failed)
    && |t.listeners| == |s.listeners|
    && forall l :: 0 <= l < |s.listeners| ==>
         && (s.listeners[l].report != Pending ==> t.listeners[l].report == s.listeners[l].report)
         && (s.listeners[l].life == Done ==> t.listeners[l] == s.listeners[l])
  }

  lemma ListenerInterferes(s: State, a: Action, t: State)
    requires Step(s, a, t) && OfListener(a)
    ensures Interfered(s, t)
  {
    assert forall l :: 0 <= l < |s.listeners| && l != a.l ==> t.listeners[l] == s.listeners[l];
  }

  lemma InterferedTransitive(s: State, t: State, u: State)
    requires Interfered(s, t) && Interfered(t, u)
    ensures Interfered(s, u)
  {
  }

  lemma PendingIsRunning(s: State, l: nat)
    requires Inv(s) && l < |s.listeners| && s.listeners[l].report == Pending
    ensures s.listeners[l].life == Running
  {
  }

  lemma HandlesExist(s: State)
    requires Inv(s)
    ensures Ids(s, s.handles) && Ids(s, s.current)
  {
  }

  lemma ReadyIsBound(s: State)
    requires Inv(s) && s.ready
    ensures |s.current| == s.enabled && AllBound(s, s.current)
  {
  }

  lemma JoinedIsStopped(s: State)
    requires Inv(s) && s.main.Joining? && s.handles == []
    ensures Stopped(s)
  {
  }

  lemma ReportIsBad(s: State, i: nat)
    requires i < |s.current| && s.current[i] < |s.listeners|
    requires s.listeners[s.current[i]].report != Bound && s.listeners[s.current[i]].report != Pending
    ensures HasBadReport(s, s.current)
    ensures s.main.Awaiting? ==> Unhealthy(s)
  {
    assert IsBad(s, s.current[i]);
  }

  lemma StoppedIsNotReady(s: State)
    requires Stopped(s)
    ensures !s.ready
  {
  }

  class App {
    const enabled: nat
    var ready: bool
    var failed: bool
    var cancelled: bool
    var listeners: seq<Listener>
    var current: seq<nat>
    var handles: seq<nat>
    var groups: seq<nat>
    ghost var main: Main
    ghost var outcome: Outcome
    ghost var history: History

    ghost function Snapshot(): State
      reads this
    {
      State(enabled, main, ready, failed, cancelled, listeners, current, handles, groups, outcome)
    }

    /** The history is a run that ends in the present state. */
    ghost predicate Valid()
      reads this
    {
      Records(history, Snapshot())
    }

    constructor (enabled: nat)
      ensures Valid() && Snapshot() == Init(enabled)
    {
      this.enabled := enabled;
      ready, failed, cancelled := false, false, false;
      listeners, current, handles, groups := [], [], [], [];
      main, outcome := Idle, NotStarted;
      history := History([Init(enabled)], [], -1, Init(enabled), CallStart);
    }

    /** Enter the step that led from `before` to the present state into the history. */
    ghost method Took(before: State, a: Action)
      requires Records(history, before) && Step(before, a, Snapshot())
      modifies this`history
      ensures Valid()
      ensures if IsCall(a) then Answers(old(history), before, a, history) else SameCall(old(history), history)
    {
      if !IsCall(a) && EverUnhealthy(history) {
        UnhealthyLonger(history, before, a, Snapshot());
      }
      hide Records, Step, EverUnhealthy;
      RecordsLonger(history, before, a, Snapshot());
      history := Longer(history, before, a, Snapshot());
    }

    // ----- the listeners -----

    /** A listener reports whether its socket is bound. */
    method SendsReport(l: nat, bound: bool)
      requires Valid() && Is(Snapshot(), l, Running) && listeners[l].report == Pending
      modifies this`listeners, this`history
      ensures Valid() && Step(old(Snapshot()), SendReport(l, bound), Snapshot())
      ensures Interfered(old(Snapshot()), Snapshot()) && SameCall(old(history), history)
      ensures listeners == old(listeners)[l := Listener(if bound then Bound else Refused, Running)]
    {
      hide Records, EverUnhealthy;
      ghost var before := Snapshot();
      listeners := listeners[l := Listener(if bound then Bound else Refused, Running)];
      Took(before, SendReport(l, bound));
      ListenerInterferes(before, SendReport(l, bound), Snapshot());
    }

    /** Its runner returns without an error: nothing else happens. */
    method Returns(l: nat)
      requires Valid() && Is(Snapshot(), l, Running)
      modifies this`listeners, this`history
      ensures Valid() && Step(old(Snapshot()), ReturnOk(l), Snapshot())
      ensures Interfered(old(Snapshot()), Snapshot()) && SameCall(old(history), history)
      ensures listeners == old(listeners)[l := Ended(old(listeners[l]), Done)]
    {
      hide Records, EverUnhealthy;
      ghost var before := Snapshot();
      listeners := listeners[l := Ended(listeners[l], Done)];
      Took(before, ReturnOk(l));
      ListenerInterferes(before, ReturnOk(l), Snapshot());
    }

    /** Its runner returns an error. */
    method ReturnsError(l: nat)
      requires Valid() && Is(Snapshot(), l, Running)
      modifies this`listeners, this`history
      ensures Valid() && Step(old(Snapshot()), ReturnErr(l), Snapshot())
      ensures Interfered(old(Snapshot()), Snapshot()) && SameCall(old(history), history)
      ensures listeners == old(listeners)[l := Ended(old(listeners[l]), Erring)]
    {
      hide Records, EverUnhealthy;
      ghost var before := Snapshot();
      listeners := listeners[l := Ended(listeners[l], Erring)];
      Took(before, ReturnErr(l));
      ListenerInterferes(before, ReturnErr(l), Snapshot());
    }

    /** Then the cancellation token is tested. */
    method TestsToken(l: nat)
      requires Valid() && Is(Snapshot(), l, Erring)
      modifies this`listeners, this`history
      ensures Valid() && Step(old(Snapshot()), TestToken(l), Snapshot())
      ensures Interfered(old(Snapshot()), Snapshot()) && SameCall(old(history), history)
      ensures listeners == old(listeners)[l := old(listeners[l]).(life := if cancelled then Done else RecordingFailure)]
    {
      hide Records, EverUnhealthy;
      ghost var before := Snapshot();
      listeners := listeners[l := listeners[l].(life := if cancelled then Done else RecordingFailure)];
      Took(before, TestToken(l));
      ListenerInterferes(before, TestToken(l), Snapshot());
    }

    /** Then `failed` is set. */
    method SetsFailed(l: nat)
      requires Valid() && Is(Snapshot(), l, RecordingFailure)
      modifies this`listeners, this`failed, this`history
      ensures Valid() && Step(old(Snapshot()), StoreFailed(l), Snapshot())
      ensures Interfered(old(Snapshot()), Snapshot()) && SameCall(old(history), history)
      ensures listeners == old(listeners)[l := old(listeners[l]).(life := ClearingReady)]
    {
      hide Records, EverUnhealthy;
      ghost var before := Snapshot();
      listeners, failed := listeners[l := listeners[l].(life := ClearingReady)], true;
      Took(before, StoreFailed(l));
      ListenerInterferes(before, StoreFailed(l), Snapshot());
    }

    /** And then `ready` is cleared. */
    method ClearsReady(l: nat)
      requires Valid() && Is(Snapshot(), l, ClearingReady)
      modifies this`listeners, this`ready, this`history
      ensures Valid() && Step(old(Snapshot()), StoreUnready(l), Snapshot())
      ensures Interfered(old(Snapshot()), Snapshot()) && SameCall(old(history), history)
      ensures listeners == old(listeners)[l := old(listeners[l]).(life := Done)]
    {
      hide Records, EverUnhealthy;
      ghost var before := Snapshot();
      listeners, ready := listeners[l := listeners[l].(life := Done)], false;
      Took(before, StoreUnready(l));
      ListenerInterferes(before, StoreUnready(l), Snapshot());
    }

    /** Any number of listener steps. */
    method Interfere()
      requires Valid()
      modifies this`listeners, this`failed, this`ready, this`history
      ensures Valid() && Interfered(old(Snapshot()), Snapshot()) && SameCall(old(history), history)
    {
      hide Records, EverUnhealthy;
      var steps: nat :| true;
      while steps > 0
        invariant Valid() && Interfered(old(Snapshot()), Snapshot()) && SameCall(old(history), history)
      {
        ghost var before := Snapshot();
        StepSomewhere();
        InterferedTransitive(old(Snapshot()), before, Snapshot());
        steps := steps - 1;
      }
    }

    /** Some listener, if any can, does whatever it may do next. */
    method StepSomewhere()
      requires Valid()
      modifies this`listeners, this`failed, this`ready, this`history
      ensures Valid() && Interfered(old(Snapshot()), Snapshot()) && SameCall(old(history), history)
    {
      hide Records, Step, EverUnhealthy;
      if listeners == [] {
        return;
      }
      var l: nat :| l < |listeners|;
      match listeners[l].life {
        case Running => RunnerSteps(l);
        case Erring => TestsToken(l);
        case RecordingFailure => SetsFailed(l);
        case ClearingReady => ClearsReady(l);
        case Done =>
      }
    }

    method RunnerSteps(l: nat)
      requires Valid() && Is(Snapshot(), l, Running)
      modifies this`listeners, this`failed, this`ready, this`history
      ensures Valid() && Interfered(old(Snapshot()), Snapshot()) && SameCall(old(history), history)
    {
      hide Records, Step, EverUnhealthy;
      var choice: nat :| true;
      if choice == 0 {
        Returns(l);
      } else if choice == 1 {
        ReturnsError(l);
      } else if listeners[l].report == Pending {
        SendsReport(l, choice == 2);
      }
    }

    /** Waiting for a listener's readiness: its runner reports or ends, sooner or later. */
    method WaitForReport(l: nat) returns (report: Report)
      requires Valid() && l < |listeners|
      modifies this`listeners, this`failed, this`ready, this`history
      ensures Valid() && Interfered(old(Snapshot()), Snapshot()) && SameCall(old(history), history)
      ensures report == listeners[l].report != Pending
    {
      hide Records, EverUnhealthy;
      Interfere();
      if listeners[l].report == Pending {
        ghost var before := Snapshot();
        ReportComes(l);
        InterferedTransitive(old(Snapshot()), before, Snapshot());
      }
      report := listeners[l].report;
    }

    method ReportComes(l: nat)
      requires Valid() && l < |listeners| && listeners[l].report == Pending
      modifies this`listeners, this`failed, this`ready, this`history
      ensures Valid() && Interfered(old(Snapshot()), Snapshot()) && SameCall(old(history), history)
      ensures listeners[l].report != Pending
    {
      RecordsInv(history, Snapshot());
      PendingIsRunning(Snapshot(), l);
      hide Records, Inv, Step, EverUnhealthy;
      var choice: nat :| true;
      if choice <= 1 {
        SendsReport(l, choice == 0);
      } else {
        ReturnsError(l);
      }
    }

    // ----- shutdown -----

    /** A listener that does not end in time is aborted at its next await. */
    method AbortIfRunning()
      requires Valid() && main.Joining? && handles != [] && handles[0] < |listeners|
      modifies this`listeners, this`history
      ensures Valid() && SameCall(old(history), history)
      ensures |listeners| == |old(listeners)| && listeners[handles[0]].life != Running
    {
      hide Records, EverUnhealthy;
      var h := handles[0];
      if listeners[h].life == Running {
        ghost var before := Snapshot();
        listeners := listeners[h := Ended(listeners[h], Done)];
        Took(before, AbortHandle);
      }
    }

    /** One that has returned an error tests the token and records its failure: there is no await in between. */
    method FinishFailing(h: nat)
      requires Valid() && h < |listeners| && listeners[h].life != Running
      modifies this`listeners, this`failed, this`ready, this`history
      ensures Valid() && SameCall(old(history), history)
      ensures |listeners| == |old(listeners)| && listeners[h].life == Done
    {
      hide Records, EverUnhealthy, Step, Interfered;
      if listeners[h].life == Erring {
        TestsToken(h);
      }
      if listeners[h].life == RecordingFailure {
        SetsFailed(h);
      }
      if listeners[h].life == ClearingReady {
        ClearsReady(h);
      }
    }

    method JoinFirst()
      requires Valid() && main.Joining? && handles != []
      modifies this`handles, this`listeners, this`failed, this`ready, this`history
      ensures Valid() && handles == old(handles)[1..] && SameCall(old(history), history)
    {
      RecordsInv(history, Snapshot());
      HandlesExist(Snapshot());
      hide Records, Inv;
      Interfere();
      AbortIfRunning();
      FinishFailing(handles[0]);
      ghost var before := Snapshot();
      handles := handles[1..];
      Took(before, JoinHandle);
    }

    method JoinAll()
      requires Valid() && main.Joining?
      modifies this`handles, this`listeners, this`failed, this`ready, this`history
      ensures Valid() && handles == [] && SameCall(old(history), history)
    {
      hide Records, EverUnhealthy;
      while handles != []
        invariant Valid() && main.Joining? && SameCall(old(history), history)
        decreases |handles|
      {
        JoinFirst();
      }
    }

    method ClearReadyFlag(ghost failing: bool)
      requires Valid() && main == Unreadying(failing)
      modifies this`ready, this`main, this`history
      ensures Valid() && main == Cancelling(failing) && !ready && SameCall(old(history), history)
    {
      hide Records, EverUnhealthy;
      ghost var before := Snapshot();
      ready, main := false, Cancelling(failing);
      Took(before, ClearReady);
    }

    method CancelToken(ghost failing: bool)
      requires Valid() && main == Cancelling(failing)
      modifies this`cancelled, this`main, this`history
      ensures Valid() && main == Closing(failing) && cancelled && SameCall(old(history), history)
    {
      hide Records, EverUnhealthy;
      ghost var before := Snapshot();
      cancelled, main := true, Closing(failing);
      Took(before, Cancel);
    }

    method CloseTaskGroups(ghost failing: bool)
      requires Valid() && main == Closing(failing)
      modifies this`groups, this`main, this`history
      ensures Valid() && main == Joining(failing) && groups == [] && SameCall(old(history), history)
    {
      hide Records, EverUnhealthy;
      ghost var before := Snapshot();
      groups, main := [], Joining(failing);
      Took(before, CloseGroups);
    }

    method EndShutdown(ghost failing: bool)
      requires Valid() && main == Joining(failing) && handles == []
      modifies this`main, this`outcome, this`history
      ensures Valid() && main == Idle && Stopped(Snapshot()) && SameCall(old(history), history)
      ensures outcome == if failing then Err else old(outcome)
    {
      ghost var before := Snapshot();
      RecordsInv(history, before);
      JoinedIsStopped(before);
      hide Records, Inv, EverUnhealthy;
      main, outcome := Idle, if failing then Err else outcome;
      Took(before, FinishShutdown);
    }

    /** `failing` when it is `start` that shuts down before it returns its error. */
    method Shutdown(ghost failing: bool)
      requires Valid() && main == Unreadying(failing)
      modifies this
      ensures Valid() && Stopped(Snapshot()) && main == Idle && SameCall(old(history), history)
      ensures outcome == if failing then Err else old(outcome)
    {
      hide Records, Stopped, EverUnhealthy, Step;
      Interfere();
      ClearReadyFlag(failing);
      Interfere();
      CancelToken(failing);
      Interfere();
      CloseTaskGroups(failing);
      JoinAll();
      EndShutdown(failing);
    }

    /** The public `shutdown`. */
    method ShutdownNow()
      requires Valid() && main == Idle
      modifies this
      ensures Valid() && Stopped(Snapshot()) && main == Idle && outcome == old(outcome)
      ensures Answers(old(history), old(Snapshot()), CallShutdown, history)
    {
      hide Records, Stopped;
      ghost var before := Snapshot();
      main := Unreadying(false);
      Took(before, CallShutdown);
      Shutdown(false);
    }

    // ----- start -----

    /** spawn_server. */
    method SpawnServer(left: nat)
      requires Valid() && main == Spawning(left) && left > 0
      modifies this`main, this`listeners, this`current, this`handles, this`groups, this`history
      ensures Valid() && main == Spawning(left - 1) && SameCall(old(history), history)
      ensures listeners == old(listeners) + [Listener(Pending, Running)]
      ensures handles == old(handles) + [|old(listeners)|] && groups == old(groups) + [|old(listeners)|]
    {
      hide Records, EverUnhealthy;
      ghost var before := Snapshot();
      var l := |listeners|;
      main := Spawning(left - 1);
      listeners := listeners + [Listener(Pending, Running)];
      current, handles, groups := current + [l], handles + [l], groups + [l];
      Took(before, SpawnListener);
    }

    method SpawnServers()
      requires Valid() && main == Spawning(enabled) && current == []
      modifies this
      ensures Valid() && main == Awaiting(current) && SameCall(old(history), history)
    {
      hide Records, EverUnhealthy;
      for n := 0 to enabled
        invariant Valid() && main == Spawning(enabled - n) && SameCall(old(history), history)
      {
        hide Step;
        SpawnServer(enabled - n);
        Interfere();
      }
      ghost var before := Snapshot();
      main := Awaiting(current);
      Took(before, SpawnListener);
    }

    /** Read the readiness channels in order; the first that is not Bound ends the start. */
    method AwaitReadiness() returns (bound: bool)
      requires Valid() && main == Awaiting(current)
      modifies this
      ensures Valid() && main == (if bound then Checking else Unreadying(true)) && SameCall(old(history), history)
      ensures !bound ==> EverUnhealthy(history) && HasBadReport(Snapshot(), current)
    {
      hide Records, EverUnhealthy, HasBadReport;
      var i := 0;
      while i < |current|
        invariant Valid() && 0 <= i <= |current| && main == Awaiting(current[i..]) && SameCall(old(history), history)
      {
        RecordsInv(history, Snapshot());
        HandlesExist(Snapshot());
        hide Inv;
        var report := WaitForReport(current[i]);
        ghost var before := Snapshot();
        if report != Bound {
          ReportIsBad(before, i);
          UnhealthyNow(history, before);
          main := Unreadying(true);
          Took(before, ReadReport);
          ReportIsBad(Snapshot(), i);
          return false;
        }
        main := Awaiting(current[i..][1..]);
        Took(before, ReadReport);
        assert current[i..][1..] == current[i + 1..];
        i := i + 1;
      }
      ghost var before := Snapshot();
      main := Checking;
      Took(before, ReadReport);
      bound := true;
    }

    /** Validation fails: nothing but the answer changes. */
    method Refuse()
      requires Valid() && main == Idle
      modifies this`outcome, this`history
      ensures Valid() && Answers(old(history), old(Snapshot()), RefuseConfig, history) && outcome == Err
    {
      hide Records, EverUnhealthy;
      ghost var before := Snapshot();
      outcome := Err;
      Took(before, RefuseConfig);
    }

    method BeginCall()
      requires Valid() && main == Idle
      modifies this`ready, this`main, this`history
      ensures Valid() && Answers(old(history), old(Snapshot()), CallStart, history)
      ensures main == Resetting && !ready
    {
      hide Records, EverUnhealthy;
      ghost var before := Snapshot();
      ready, main := false, Resetting;
      Took(before, CallStart);
    }

    method ResetFlags()
      requires Valid() && main == Resetting
      modifies this`failed, this`current, this`main, this`history
      ensures Valid() && SameCall(old(history), history)
      ensures main == Spawning(enabled) && current == [] && !failed
    {
      hide Records, EverUnhealthy;
      ghost var before := Snapshot();
      failed, current, main := false, [], Spawning(enabled);
      Took(before, ResetFailed);
    }

    /** The certificates do not load, and nothing has been spawned. */
    method RefuseForCertificates()
      requires Valid() && main == Spawning(enabled) && current == []
      modifies this`main, this`outcome, this`history
      ensures Valid() && main == Idle && outcome == Err && SameCall(old(history), history)
    {
      hide Records, EverUnhealthy;
      ghost var before := Snapshot();
      outcome, main := Err, Idle;
      Took(before, RefuseCertificates);
    }

    /** The check of `failed` and the store to `ready`: two steps, with listeners in between. */
    method CheckAndPublish() returns (ok: bool)
      requires Valid() && main == Checking
      modifies this`ready, this`failed, this`listeners, this`main, this`outcome, this`history
      ensures Valid() && SameCall(old(history), history)
      ensures ok ==> main == Idle && outcome == Ok && ready && |current| == enabled && AllBound(Snapshot(), current)
      ensures !ok ==> main == Unreadying(true) && EverUnhealthy(history)
    {
      hide Records, EverUnhealthy;
      Interfere();
      ghost var before := Snapshot();
      if failed {
        UnhealthyNow(history, before);
        main := Unreadying(true);
        Took(before, Check);
        return false;
      }
      main := Publishing;
      Took(before, Check);
      Interfere();
      before := Snapshot();
      ready, outcome, main := true, Ok, Idle;
      Took(before, Publish);
      RecordsInv(history, Snapshot());
      ReadyIsBound(Snapshot());
      ok := true;
    }

    /**
     `start`.  With a valid configuration and certificates it fails exactly if at some point of the call,
     before its check, `failed` was set or a listener of this start refused or lost its readiness
     channel.  Success means that every listener of this start bound its socket; failure leaves the
     application not ready, and after spawning it leaves it stopped.
     */
    method Start(configValid: bool, certificatesLoad: bool) returns (ok: bool)
      requires Valid() && main == Idle
      modifies this
      ensures Valid() && main == Idle && outcome == (if ok then Ok else Err)
      ensures Answers(old(history), old(Snapshot()), if configValid then CallStart else RefuseConfig, history)
      ensures configValid && certificatesLoad ==> (ok <==> !EverUnhealthy(history))
      ensures ok ==> configValid && certificatesLoad
      ensures ok ==> ready && |current| == enabled && AllBound(Snapshot(), current)
      ensures !ok && configValid ==> !ready
      ensures !ok && configValid && certificatesLoad ==> Stopped(Snapshot())
      ensures !configValid ==> Snapshot() == old(Snapshot()).(outcome := Err)
    {
      hide Records, Stopped, AllBound, EverUnhealthy, Step;
      if !configValid {
        Refuse();
        return false;
      }
      BeginCall();
      Interfere();
      ResetFlags();
      if !certificatesLoad {
        RefuseForCertificates();
        return false;
      }
      SpawnServers();
      ok := AwaitReadiness();
      if ok {
        ok := CheckAndPublish();
      }
      if ok {
        if EverUnhealthy(history) {
          UnhealthyFails(history, Snapshot());
        }
      } else {
        Shutdown(true);
        StoppedIsNotReady(Snapshot());
      }
    }
  }
}
