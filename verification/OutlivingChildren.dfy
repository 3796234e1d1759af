/**
 How children outlive a shutdown: from any state in which the listener itself
 closed its group, the application can finish its shutdown without the group
 taking another step.
 */
module OutlivingChildren {
  import L = Lifecycle
  import LT = LifecycleTheorems
  import S = Supervisor
  import T = SupervisorTheorems
  import opened AppShutdown
  import opened AppShutdownTheorems

  // ----- a measure of what the shutdown still has to do -----

  function Total(owned: seq<Owned>): nat {
    if owned == [] then 0 else T.Measure(owned[0].group) + Total(owned[1..])
  }

  lemma {:induction false} TotalAfterUpdate(owned: seq<Owned>, l: nat, o: Owned)
    requires l < |owned|
    ensures Total(owned[l := o]) == Total(owned) - T.Measure(owned[l].group) + T.Measure(o.group)
  {
    hide T.Measure;
    if l > 0 {
      TotalAfterUpdate(owned[1..], l - 1, o);
      assert owned[l := o][1..] == owned[1..][l - 1 := o];
    } else {
      assert owned[0 := o][1..] == owned[1..];
    }
  }

  /** Groups whose close the application has yet to call. */
  function Uncalled(s: State): set<nat> {
    (set l | l in s.app.groups) - s.called
  }

  function Phase(s: State): nat {
    if s.app.main.Closing? then 1 else 0
  }

  function Rest(s: State): nat {
    Total(s.owned) + LT.ShutdownMeasure(s.app)
  }

  ghost predicate IsLess(t: State, s: State) {
    || Phase(t) < Phase(s)
    || (Phase(t) == Phase(s) && |Uncalled(t)| < |Uncalled(s)|)
    || (Phase(t) == Phase(s) && |Uncalled(t)| == |Uncalled(s)| && Rest(t) < Rest(s))
  }

  // ----- the next step of the application that leaves group `l` alone -----

  /** The listener closed group `l` itself, and the application is past its own close of it. */
  ghost predicate Unattended(s: State, l: nat) {
    && Inv(s) && l < |s.owned| && s.owned[l].first == Listener
    && (s.app.main.Closing? || s.app.main.Joining?)
    && (s.app.main.Closing? ==> l !in Uncalled(s))
  }

  /** A step that brings the shutdown nearer to its end and keeps the children of `l`. */
  ghost predicate Bypasses(s: State, a: Action, l: nat)
    requires l < |s.owned|
  {
    && Enabled(s, a)
    && var t := Apply(s, a);
       && l < |t.owned| && Children(t.owned[l].group) == Children(s.owned[l].group)
       && if a == App(L.FinishShutdown) then t.owned == s.owned else Unattended(t, l) && IsLess(t, s)
  }

  lemma CanCall(s: State, l: nat, k: nat)
    requires Unattended(s, l) && s.app.main.Closing? && k in Uncalled(s)
    ensures k != l && Enabled(s, AppCloses(k))
  {
    assert k < |s.owned| && Sound(s, k);
  }

  lemma CallNext(s: State, l: nat, k: nat)
    requires Unattended(s, l) && s.app.main.Closing? && k in Uncalled(s)
    ensures Bypasses(s, AppCloses(k), l)
  {
    hide Inv, Close, Children, Rest;
    CanCall(s, l, k);
    StepInv(s, AppCloses(k));
    assert Uncalled(Apply(s, AppCloses(k))) == Uncalled(s) - {k};
  }

  /** A step of one group. */
  lemma GroupNext(s: State, l: nat, k: nat, b: S.Action)
    requires Unattended(s, l) && Enabled(s, Group(k, b)) && T.Advances(b) && s.owned[k].group.closed
    requires k == l ==> Children(S.Apply(s.owned[k].group, b)) == Children(s.owned[k].group)
    ensures Bypasses(s, Group(k, b), l)
  {
    hide Inv, S.Enabled, S.Apply, T.Measure, Children;
    StepInv(s, Group(k, b));
    GroupMeasure(s, k, b);
    var o := s.owned[k].(group := S.Apply(s.owned[k].group, b));
    TotalAfterUpdate(s.owned, k, o);
    assert Uncalled(Apply(s, Group(k, b))) == Uncalled(s);
    hide Uncalled, Total, LT.ShutdownMeasure, T.Advances;
  }

  lemma GroupMeasure(s: State, k: nat, b: S.Action)
    requires Inv(s) && Enabled(s, Group(k, b)) && T.Advances(b) && s.owned[k].group.closed
    ensures T.Measure(S.Apply(s.owned[k].group, b)) < T.Measure(s.owned[k].group)
  {
    assert Sound(s, k);
    T.MeasureDecreases(s.owned[k].group, b);
  }

  lemma CanDrain(s: State, k: nat) returns (b: S.Action)
    requires Inv(s) && k < |s.owned| && InClose(s.owned[k].group)
    ensures Enabled(s, Group(k, b)) && T.Advances(b) && s.owned[k].group.closed
  {
    assert Sound(s, k);
    b := T.ClosingNeverSticks(s.owned[k].group);
  }

  lemma DrainNext(s: State, l: nat, k: nat) returns (a: Action)
    requires Unattended(s, l) && s.app.main.Closing? && k < |s.owned| && Closes(s.owned[k], Application)
    ensures Bypasses(s, a, l)
  {
    hide Inv, Enabled, T.Advances, Bypasses;
    var b := CanDrain(s, k);
    GroupNext(s, l, k, b);
    a := Group(k, b);
  }

  lemma CloseNext(s: State, l: nat)
    requires Unattended(s, l) && s.app.main.Closing? && Uncalled(s) == {}
    requires forall k :: 0 <= k < |s.owned| ==> !Closes(s.owned[k], Application)
    ensures Bypasses(s, App(L.CloseGroups), l)
  {
    var a := App(L.CloseGroups);
    forall k | k in s.app.groups ensures k in s.called && k < |s.owned| {
      assert k !in Uncalled(s);
    }
    StepInv(s, a);
  }

  /** Before the abort of a listener in the middle of its close: it sends Shutdown first. */
  lemma SendNext(s: State, l: nat, k: nat)
    requires Unattended(s, l) && s.app.main.Joining? && k < |s.owned| && s.owned[k].group.closer == S.HoldsSender
    ensures Bypasses(s, Group(k, S.SendShutdown), l)
  {
    assert s.owned[k].group.closed by { assert Sound(s, k); }
    hide Inv, Bypasses, Unattended;
    GroupNext(s, l, k, S.SendShutdown);
  }

  /** A step of the application or of a failing listener, once all groups have been closed. */
  lemma JoinNext(s: State, l: nat, a: L.Action)
    requires Unattended(s, l) && s.app.main.Joining? && Enabled(s, App(a))
    requires a == L.JoinHandle || a == L.AbortHandle || a == L.FinishShutdown
             || a.TestToken? || a.StoreFailed? || a.StoreUnready?
    ensures Bypasses(s, App(a), l)
  {
    hide Inv, L.Enabled, L.Apply, LT.ShutdownMeasure, Total, Children;
    StepInv(s, App(a));
    LT.ShutdownDecreases(s.app, a);
    GroupsStep(s.app, a);
    if a.AbortHandle? {
      AbortNext(s, l, a);
    }
    if a != L.FinishShutdown {
      JoiningGoesOn(s.app, a);
    }
  }

  lemma JoiningGoesOn(s: L.State, a: L.Action)
    requires L.Enabled(s, a) && s.main.Joining? && a != L.FinishShutdown && !a.CallStart?
    ensures L.Apply(s, a).main == s.main && L.Apply(s, a).groups == s.groups
  {
  }

  lemma AbortNext(s: State, l: nat, a: L.Action)
    requires l < |s.owned| && Enabled(s, App(a)) && a.AbortHandle?
    ensures var t := Apply(s, App(a));
            && |t.owned| == |s.owned| && t.owned[l].first == s.owned[l].first
            && Total(t.owned) == Total(s.owned) && Uncalled(t) == Uncalled(s)
            && Children(t.owned[l].group) == Children(s.owned[l].group)
  {
    var h := s.app.handles[0];
    var t, o := Apply(s, App(a)), Abort(s.owned[h]);
    assert t.owned == s.owned[h := o];
    TotalAfterUpdate(s.owned, h, o);
    assert T.Measure(o.group) == T.Measure(s.owned[h].group);
    assert Uncalled(t) == Uncalled(s);
    hide L.Enabled, L.Apply, Total, T.Measure, Uncalled;
  }

  lemma NextStep(s: State, l: nat) returns (a: Action)
    requires Unattended(s, l)
    ensures Bypasses(s, a, l)
  {
    if s.app.main.Closing? {
      if k :| k in Uncalled(s) {
        CallNext(s, l, k);
        a := AppCloses(k);
      } else if k: nat :| k < |s.owned| && Closes(s.owned[k], Application) {
        a := DrainNext(s, l, k);
      } else {
        CloseNext(s, l);
        a := App(L.CloseGroups);
      }
    } else {
      a := JoiningStep(s, l);
    }
  }

  lemma JoiningStep(s: State, l: nat) returns (a: Action)
    requires Unattended(s, l) && s.app.main.Joining?
    ensures Bypasses(s, a, l)
  {
    var b := LT.ShutdownNeverSticks(s.app);
    if b == L.AbortHandle && s.owned[s.app.handles[0]].group.closer == S.HoldsSender {
      SendNext(s, l, s.app.handles[0]);
      a := Group(s.app.handles[0], S.SendShutdown);
    } else {
      hide Inv, Bypasses;
      assert L.Enabled(s.app, b);
      JoinNext(s, l, b);
      a := App(b);
    }
  }

  // ----- the rest of the shutdown -----

  /** From an unattended group the shutdown can end with all its children left. */
  lemma {:induction false} EndsWithChildren(s: State, l: nat) returns (actions: seq<Action>, t: State)
    requires Unattended(s, l)
    ensures Finishes(s, actions, t) && l < |t.owned|
    ensures Children(t.owned[l].group) == Children(s.owned[l].group)
    decreases Phase(s), |Uncalled(s)|, Rest(s)
  {
    var a := NextStep(s, l);
    var u := Apply(s, a);
    if a == App(L.FinishShutdown) {
      actions, t := [a], u;
    } else {
      hide Enabled, Apply, Children, Inv;
      actions, t := EndsWithChildren(u, l);
      var more := actions;
      actions := [a] + more;
      assert actions[1..] == more;
    }
  }

  lemma ClosedByListener(s: State, l: nat)
    requires Inv(s) && Enabled(s, AppCloses(l)) && s.owned[l].group.closed && Children(s.owned[l].group) != {}
    ensures s.owned[l].first == Listener
    ensures Apply(s, AppCloses(l)) == s.(called := s.called + {l})
  {
    assert Sound(s, l);
    var g := s.owned[l].group;
    if s.owned[l].first == Application {
      ClosedHasCloser(g);
      assert g.closer == S.Released;
      ReleasedHasNoChildren(g);
    }
    assert s.owned[l := s.owned[l]] == s.owned;
  }

  /**
   When the application closes a group it can rely on the end of all its children exactly if it finds
   the group open, or without children.  If the listener has closed it before, the application's call
   returns at once, and the listener may be aborted while it waits.
   */
  lemma RelianceOnClose(s: State, l: nat)
    requires Inv(s) && Enabled(s, AppCloses(l))
    ensures Guaranteed(Apply(s, AppCloses(l)), l)
            <==> !s.owned[l].group.closed || Children(s.owned[l].group) == {}
  {
    var u := Apply(s, AppCloses(l));
    StepInv(s, AppCloses(l));
    if !s.owned[l].group.closed || Children(s.owned[l].group) == {} {
      assert Sound(s, l);
      FlipInv(s.owned[l], Application);
      assert Safe(u, l);
      forall actions, t | Finishes(u, actions, t) ensures l < |t.owned| && Children(t.owned[l].group) == {} {
        SafeIsGuaranteed(u, l, actions, t);
      }
    } else {
      ClosedByListener(s, l);
      var actions, t := EndsWithChildren(u, l);
    }
  }

  // ----- such a run -----

  ghost predicate Reachable(s: State) {
    exists states, actions :: Run(1, states, actions) && states[|actions|] == s
  }

  lemma Initially()
    ensures Reachable(Init(1))
  {
    assert Run(1, [Init(1)], []);
  }

  lemma Then(s: State, a: Action, t: State)
    requires Reachable(s) && Step(s, a, t)
    ensures Reachable(t)
  {
    hide Step;
    var states, actions :| Run(1, states, actions) && states[|actions|] == s;
    var states', actions' := states + [t], actions + [a];
    forall i | 0 <= i < |actions'| ensures Step(states'[i], actions'[i], states'[i + 1]) {
      if i < |actions| {
        assert Step(states[i], actions[i], states[i + 1]);
      }
    }
    assert Run(1, states', actions') && states'[|actions'|] == t;
  }

  /** One listener whose socket is bound and whose group has one running task. */
  const RUNNING := S.INIT.(hasSender := true, actor := S.Serving, tasks := {0}, live := {0}, accepted := {0})

  function With(app: L.State, group: S.State, first: Party, called: set<nat>): State {
    State(app, [Owned(group, first, {})], called)
  }

  function OneListener(main: L.Main, report: L.Report, ready: bool): L.State {
    L.State(1, main, ready, false, false, [L.Listener(report, L.Running)], [0], [0], [0],
            if main.Idle? || main.Unreadying? then L.Ok else L.NotStarted)
  }

  /** A step of the one group. */
  lemma GroupThen(app: L.State, group: S.State, first: Party, a: S.Action, next: S.State)
    requires Reachable(With(app, group, first, {})) && S.Step(group, a, next)
    requires a != S.Flip && a != S.AbandonWait && a != S.DropGroup
    ensures Reachable(With(app, next, first, {}))
  {
    hide Reachable;
    assert [Owned(group, first, {})][0 := Owned(next, first, {})] == [Owned(next, first, {})];
    Then(With(app, group, first, {}), Group(0, a), With(app, next, first, {}));
  }

  lemma Spawned()
    ensures Reachable(With(OneListener(L.Awaiting([0]), L.Pending, false), RUNNING, Nobody, {}))
  {
    hide Reachable;
    Initially();
    var s1 := State(L.Init(1).(main := L.Resetting), [], {});
    Then(Init(1), App(L.CallStart), s1);
    var s2 := State(L.Init(1).(main := L.Spawning(1)), [], {});
    Then(s1, App(L.ResetFailed), s2);
    var s3 := With(OneListener(L.Spawning(0), L.Pending, false), S.INIT, Nobody, {});
    Then(s2, App(L.SpawnListener), s3);
    var waiting := OneListener(L.Awaiting([0]), L.Pending, false);
    Then(s3, App(L.SpawnListener), With(waiting, S.INIT, Nobody, {}));
    var queued := S.INIT.(hasSender := true, actor := S.Serving, queue := [S.Spawn(0)], accepted := {0});
    GroupThen(waiting, S.INIT, Nobody, S.SpawnTask(0), queued);
    assert [S.Spawn(0)][1..] == [];
    GroupThen(waiting, queued, Nobody, S.Receive, RUNNING);
  }

  lemma Started()
    ensures Reachable(With(OneListener(L.Idle, L.Bound, true), RUNNING, Nobody, {}))
  {
    hide Reachable;
    Spawned();
    var s0 := With(OneListener(L.Awaiting([0]), L.Pending, false), RUNNING, Nobody, {});
    var s1 := With(OneListener(L.Awaiting([0]), L.Bound, false), RUNNING, Nobody, {});
    Then(s0, App(L.SendReport(0, true)), s1);
    assert [0][1..] == [];
    var s2 := With(OneListener(L.Awaiting([]), L.Bound, false), RUNNING, Nobody, {});
    Then(s1, App(L.ReadReport), s2);
    var s3 := With(OneListener(L.Checking, L.Bound, false), RUNNING, Nobody, {});
    Then(s2, App(L.ReadReport), s3);
    var s4 := With(OneListener(L.Publishing, L.Bound, false), RUNNING, Nobody, {});
    Then(s3, App(L.Check), s4);
    Then(s4, App(L.Publish), With(OneListener(L.Idle, L.Bound, true), RUNNING, Nobody, {}));
  }

  function Stopping(main: L.Main, cancelled: bool): L.State {
    OneListener(L.Idle, L.Bound, false).(main := main, cancelled := cancelled)
  }

  const CLOSING := RUNNING.(closed := true, closer := S.HoldsSender)
  const WAITING := RUNNING.(closed := true, closer := S.Waiting, queue := [S.Shutdown])

  /** The listener closes its group first; the application's close returns at once. */
  lemma ListenerWasFirst()
    ensures Reachable(With(Stopping(L.Joining(false), true).(groups := []), WAITING, Listener, {}))
  {
    hide Reachable;
    Started();
    var up := OneListener(L.Idle, L.Bound, true);
    var s1 := With(up.(main := L.Unreadying(false)), RUNNING, Nobody, {});
    Then(With(up, RUNNING, Nobody, {}), App(L.CallShutdown), s1);
    var s2 := With(Stopping(L.Cancelling(false), false), RUNNING, Nobody, {});
    Then(s1, App(L.ClearReady), s2);
    var closing := Stopping(L.Closing(false), true);
    Then(s2, App(L.Cancel), With(closing, RUNNING, Nobody, {}));
    Then(With(closing, RUNNING, Nobody, {}), ListenerCloses(0), With(closing, CLOSING, Listener, {}));
    GroupThen(closing, CLOSING, Listener, S.SendShutdown, WAITING);
    Then(With(closing, WAITING, Listener, {}), AppCloses(0), With(closing, WAITING, Listener, {0}));
    Then(With(closing, WAITING, Listener, {0}), App(L.CloseGroups),
         With(Stopping(L.Joining(false), true).(groups := []), WAITING, Listener, {}));
  }

  /** The application aborts a listener in the middle of its close and ends its shutdown; a child still runs. */
  lemma ChildOutlivesShutdown() returns (s: State)
    ensures Reachable(s) && s.app.main == L.Idle && LT.Stopped(s.app)
    ensures |s.owned| == 1 && s.owned[0].group.live == {0} && s.owned[0].left == {0}
  {
    hide Reachable;
    ListenerWasFirst();
    var joining := Stopping(L.Joining(false), true).(groups := []);
    var stopped := joining.(listeners := [L.Listener(L.Bound, L.Done)]);
    var left := [Owned(WAITING.(closer := S.Abandoned), Listener, {0})];
    assert Children(WAITING) == {0};
    assert Abort(Owned(WAITING, Listener, {})) == left[0];
    Then(With(joining, WAITING, Listener, {}), App(L.AbortHandle), State(stopped, left, {}));
    assert [0][1..] == [];
    Then(State(stopped, left, {}), App(L.JoinHandle), State(stopped.(handles := []), left, {}));
    s := State(stopped.(main := L.Idle, handles := []), left, {});
    Then(State(stopped.(handles := []), left, {}), App(L.FinishShutdown), s);
  }
}
