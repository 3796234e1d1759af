/**
 Startup, readiness and shutdown of the application (src/app.rs) as a state
 machine: the caller's thread goes through `start` and `shutdown`, and every
 listener is a task that reports readiness, serves, and may fail at any moment.
 Loads and stores of the shared flags are separate steps.
 */
module Lifecycle {
  /** What the readiness channel of a listener holds; Lost means its sender was dropped unused. */
  datatype Report = Pending | Bound | Refused | Lost

  datatype Life =
    | Running
    | Erring            // has returned an error; about to test the cancellation token
    | RecordingFailure  // found it not cancelled; about to set `failed`
    | ClearingReady     // has set `failed`; about to clear `ready`
    | Done

  datatype Listener = Listener(report: Report, life: Life)

  datatype Main =
    | Idle
    | Resetting                 // has cleared `ready`, about to clear `failed`
    | Spawning(left: nat)
    | Awaiting(rest: seq<nat>)  // readiness channels still to be read
    | Checking                  // about to load `failed`
    | Publishing                // about to set `ready`
    | Unreadying(failing: bool) // shutdown; `failing` when `start` will return an error after it
    | Cancelling(failing: bool)
    | Closing(failing: bool)    // closing the task groups
    | Joining(failing: bool)

  datatype Outcome = NotStarted | Ok | Err

  datatype State = State(
    enabled: nat,               // listeners enabled in the configuration
    main: Main,
    ready: bool,
    failed: bool,
    cancelled: bool,
    listeners: seq<Listener>,   // every listener ever spawned
    current: seq<nat>,          // the listeners of the latest start
    handles: seq<nat>,
    groups: seq<nat>,
    outcome: Outcome)           // what the latest finished `start` returned

  datatype Action =
    | CallStart
    | RefuseConfig              // validation fails before anything is touched
    | RefuseCertificates        // the certificates do not load, before anything is spawned
    | ResetFailed
    | SpawnListener
    | ReadReport
    | Check
    | Publish
    | CallShutdown
    | ClearReady
    | Cancel
    | CloseGroups
    | JoinHandle
    | AbortHandle
    | FinishShutdown
    | SendReport(l: nat, bound: bool)
    | ReturnOk(l: nat)
    | ReturnErr(l: nat)
    | TestToken(l: nat)
    | StoreFailed(l: nat)
    | StoreUnready(l: nat)

  function Init(enabled: nat): State {
    State(enabled, Idle, false, false, false, [], [], [], [], NotStarted)
  }

  predicate Is(s: State, l: nat, life: Life) {
    l < |s.listeners| && s.listeners[l].life == life
  }

  /** The runner ends: an unused sender is dropped with it. */
  function Ended(listener: Listener, life: Life): Listener {
    Listener(if listener.report == Pending then Lost else listener.report, life)
  }

  predicate Enabled(s: State, a: Action) {
    match a
    case CallStart => s.main == Idle
    case RefuseConfig => s.main == Idle
    case RefuseCertificates => s.main == Spawning(s.enabled) && s.current == []
    case ResetFailed => s.main == Resetting
    case SpawnListener => s.main.Spawning?
    case ReadReport =>
      && s.main.Awaiting?
      && (s.main.rest != [] ==> s.main.rest[0] < |s.listeners| && s.listeners[s.main.rest[0]].report != Pending)
    case Check => s.main == Checking
    case Publish => s.main == Publishing
    case CallShutdown => s.main == Idle
    case ClearReady => s.main.Unreadying?
    case Cancel => s.main.Cancelling?
    case CloseGroups => s.main.Closing?
    case JoinHandle => s.main.Joining? && s.handles != [] && Is(s, s.handles[0], Done)
    case AbortHandle => s.main.Joining? && s.handles != [] && Is(s, s.handles[0], Running)
    case FinishShutdown => s.main.Joining? && s.handles == []
    case SendReport(l, _) => Is(s, l, Running) && s.listeners[l].report == Pending
    case ReturnOk(l) => Is(s, l, Running)
    case ReturnErr(l) => Is(s, l, Running)
    case TestToken(l) => Is(s, l, Erring)
    case StoreFailed(l) => Is(s, l, RecordingFailure)
    case StoreUnready(l) => Is(s, l, ClearingReady)
  }

  function SpawnNext(s: State): State
    requires s.main.Spawning?
  {
    if s.main.left == 0 then s.(main := Awaiting(s.current))
    else
      var l := |s.listeners|;
      s.(main := Spawning(s.main.left - 1),
         listeners := s.listeners + [Listener(Pending, Running)],
         current := s.current + [l], handles := s.handles + [l], groups := s.groups + [l])
  }

  function ReadNext(s: State): State
    requires Enabled(s, ReadReport)
  {
    if s.main.rest == [] then s.(main := Checking)
    else if s.listeners[s.main.rest[0]].report == Bound then s.(main := Awaiting(s.main.rest[1..]))
    else s.(main := Unreadying(true))
  }

  function Apply(s: State, a: Action): State
    requires Enabled(s, a)
  {
    match a
    case CallStart => s.(main := Resetting, ready := false)
    case RefuseConfig => s.(outcome := Err)
    case RefuseCertificates => s.(main := Idle, outcome := Err)
    case ResetFailed => s.(main := Spawning(s.enabled), failed := false, current := [])
    case SpawnListener => SpawnNext(s)
    case ReadReport => ReadNext(s)
    case Check => s.(main := if s.failed then Unreadying(true) else Publishing)
    case Publish => s.(main := Idle, ready := true, outcome := Ok)
    case CallShutdown => s.(main := Unreadying(false))
    case ClearReady => s.(main := Cancelling(s.main.failing), ready := false)
    case Cancel => s.(main := Closing(s.main.failing), cancelled := true)
    case CloseGroups => s.(main := Joining(s.main.failing), groups := [])
    case JoinHandle => s.(handles := s.handles[1..])
    case AbortHandle => s.(listeners := s.listeners[s.handles[0] := Ended(s.listeners[s.handles[0]], Done)])
    case FinishShutdown => s.(main := Idle, outcome := if s.main.failing then Err else s.outcome)
    case SendReport(l, bound) => s.(listeners := s.listeners[l := Listener(if bound then Bound else Refused, Running)])
    case ReturnOk(l) => s.(listeners := s.listeners[l := Ended(s.listeners[l], Done)])
    case ReturnErr(l) => s.(listeners := s.listeners[l := Ended(s.listeners[l], Erring)])
    case TestToken(l) =>
      s.(listeners := s.listeners[l := s.listeners[l].(life := if s.cancelled then Done else RecordingFailure)])
    case StoreFailed(l) => s.(listeners := s.listeners[l := s.listeners[l].(life := ClearingReady)], failed := true)
    case StoreUnready(l) => s.(listeners := s.listeners[l := s.listeners[l].(life := Done)], ready := false)
  }

  ghost predicate Step(s: State, a: Action, t: State) {
    Enabled(s, a) && t == Apply(s, a)
  }

  ghost predicate Run(enabled: nat, states: seq<State>, actions: seq<Action>) {
    && |states| == |actions| + 1
    && states[0] == Init(enabled)
    && forall i :: 0 <= i < |actions| ==> Step(states[i], actions[i], states[i + 1])
  }

  lemma StepAt(enabled: nat, states: seq<State>, actions: seq<Action>, i: nat)
    requires Run(enabled, states, actions) && i < |actions|
    ensures Enabled(states[i], actions[i]) && states[i + 1] == Apply(states[i], actions[i])
  {
    assert Step(states[i], actions[i], states[i + 1]);
  }

  // ----- the invariant -----

  ghost predicate AllBound(s: State, ids: seq<nat>) {
    forall i :: 0 <= i < |ids| ==> ids[i] < |s.listeners| && s.listeners[ids[i]].report == Bound
  }

  ghost predicate Ids(s: State, ids: seq<nat>) {
    forall i :: 0 <= i < |ids| ==> ids[i] < |s.listeners|
  }

  /** Whoever is still running has a handle; the handles of the latest start are all there until shutdown. */
  ghost predicate Tracked(s: State) {
    && Ids(s, s.handles) && Ids(s, s.current)
    && (forall l :: 0 <= l < |s.listeners| && l !in s.handles ==> s.listeners[l].life == Done)
    && (forall l :: 0 <= l < |s.listeners| && s.listeners[l].report == Pending ==> s.listeners[l].life == Running)
  }

  /** How far the readiness of the latest start has been established. */
  ghost predicate Established(s: State) {
    match s.main
    case Spawning(left) => |s.current| + left == s.enabled
    case Awaiting(rest) =>
      && |s.current| == s.enabled && |rest| <= |s.current|
      && rest == s.current[|s.current| - |rest|..]
      && AllBound(s, s.current[..|s.current| - |rest|])
    case Checking => |s.current| == s.enabled && AllBound(s, s.current)
    case Publishing => |s.current| == s.enabled && AllBound(s, s.current)
    case _ => true
  }

  ghost predicate Flags(s: State) {
    && (s.ready ==> s.main == Idle || s.main.Unreadying?)
    && (s.ready ==> |s.current| == s.enabled && AllBound(s, s.current))
    && (s.main.Closing? || s.main.Joining? ==> s.cancelled)
    && (s.main.Joining? ==> s.groups == [])
  }

  ghost predicate Inv(s: State) {
    Tracked(s) && Established(s) && Flags(s)
  }

  /** A report, once given, stays. */
  lemma BoundStays(s: State, t: State, ids: seq<nat>)
    requires AllBound(s, ids) && |s.listeners| <= |t.listeners|
    requires forall l :: 0 <= l < |s.listeners| && s.listeners[l].report == Bound ==> t.listeners[l].report == Bound
    ensures AllBound(t, ids)
  {
  }

  lemma ReadInv(s: State)
    requires Inv(s) && Enabled(s, ReadReport)
    ensures Inv(ReadNext(s))
  {
    assert Tracked(ReadNext(s)) && Flags(ReadNext(s));
    ReadEstablishes(s);
    hide Tracked, Flags, Established;
  }

  lemma BoundMore(s: State, t: State, ids: seq<nat>, k: nat)
    requires k < |ids| && AllBound(s, ids[..k]) && t.listeners == s.listeners
    requires ids[k] < |s.listeners| && s.listeners[ids[k]].report == Bound
    ensures AllBound(t, ids[..k + 1])
  {
    assert ids[..k + 1] == ids[..k] + [ids[k]];
  }

  lemma TailOfTail(ids: seq<nat>, k: nat)
    requires k < |ids|
    ensures ids[k..][0] == ids[k] && ids[k..][1..] == ids[k + 1..]
  {
  }

  lemma AwaitingFrom(s: State, k: nat)
    requires k <= |s.current| == s.enabled && s.main == Awaiting(s.current[k..]) && AllBound(s, s.current[..k])
    ensures Established(s)
  {
    assert |s.current| - |s.current[k..]| == k;
    hide AllBound;
  }

  lemma ReadOne(s: State, k: nat)
    requires k < |s.current| == s.enabled && s.main == Awaiting(s.current[k..]) && AllBound(s, s.current[..k])
    requires Enabled(s, ReadReport)
    ensures Established(ReadNext(s))
  {
    TailOfTail(s.current, k);
    if s.listeners[s.current[k]].report == Bound {
      BoundMore(s, ReadNext(s), s.current, k);
      hide AllBound, Established;
      AwaitingFrom(ReadNext(s), k + 1);
    }
  }

  lemma ReadEstablishes(s: State)
    requires Established(s) && Enabled(s, ReadReport)
    ensures Established(ReadNext(s))
  {
    var k := |s.current| - |s.main.rest|;
    if s.main.rest == [] {
      assert s.current[..k] == s.current;
    } else {
      hide AllBound, ReadNext;
      ReadOne(s, k);
    }
  }

  lemma SpawnInv(s: State)
    requires Inv(s) && s.main.Spawning?
    ensures Inv(SpawnNext(s))
  {
    if s.main.left == 0 {
      assert s.current[0..] == s.current && s.current[..0] == [];
    } else {
      var t := SpawnNext(s);
      assert forall l :: l in s.handles ==> l in t.handles;
      assert |s.listeners| in t.handles;
    }
  }

  predicate OfListener(a: Action) {
    a.SendReport? || a.ReturnOk? || a.ReturnErr? || a.TestToken? || a.StoreFailed? || a.StoreUnready?
  }

  /** The listener a step changes. */
  function Subject(s: State, a: Action): nat
    requires Enabled(s, a) && (OfListener(a) || a.AbortHandle?)
  {
    if a.AbortHandle? then s.handles[0] else a.l
  }

  /** A step of a listener, or its abort, changes that listener alone and takes no report back. */
  lemma ListenerStep(s: State, a: Action)
    requires Tracked(s) && Enabled(s, a) && (OfListener(a) || a.AbortHandle?)
    ensures var t, l := Apply(s, a), Subject(s, a);
            && l < |s.listeners| && s.listeners[l].life != Done
            && (t.listeners[l].report == Pending ==> s.listeners[l].report == Pending && t.listeners[l].life == Running)
            && t == s.(listeners := s.listeners[l := t.listeners[l]], failed := t.failed, ready := t.ready)
            && (t.ready ==> s.ready)
            && (s.listeners[l].report == Bound ==> t.listeners[l].report == Bound)
  {
  }

  lemma ListenerInv(s: State, a: Action)
    requires Inv(s) && Enabled(s, a) && (OfListener(a) || a.AbortHandle?)
    ensures Inv(Apply(s, a))
  {
    ListenerStep(s, a);
    var t, l := Apply(s, a), Subject(s, a);
    hide Enabled, Apply, Subject;
    assert l in s.handles;
    if s.main.Awaiting? {
      BoundStays(s, t, s.current[..|s.current| - |s.main.rest|]);
    }
    if AllBound(s, s.current) {
      BoundStays(s, t, s.current);
    }
  }

  lemma MainInv(s: State, a: Action)
    requires Inv(s) && Enabled(s, a)
    requires !OfListener(a) && !a.AbortHandle? && !a.SpawnListener? && !a.ReadReport?
    ensures Inv(Apply(s, a))
  {
    if a.JoinHandle? {
      assert forall l :: l in s.handles ==> l == s.handles[0] || l in s.handles[1..];
    }
  }

  lemma StepInv(s: State, a: Action)
    requires Inv(s) && Enabled(s, a)
    ensures Inv(Apply(s, a))
  {
    hide Inv;
    match a {
      case SpawnListener => SpawnInv(s);
      case ReadReport => ReadInv(s);
      case _ => if OfListener(a) || a.AbortHandle? { ListenerInv(s, a); } else { MainInv(s, a); }
    }
  }

  lemma {:induction false} ReachableInv(enabled: nat, states: seq<State>, actions: seq<Action>, i: nat)
    requires Run(enabled, states, actions) && i < |states|
    ensures Inv(states[i]) && states[i].enabled == enabled
  {
    if i > 0 {
      ReachableInv(enabled, states, actions, i - 1);
      StepAt(enabled, states, actions, i - 1);
      hide Inv, Run;
      StepInv(states[i - 1], actions[i - 1]);
    }
  }
}
