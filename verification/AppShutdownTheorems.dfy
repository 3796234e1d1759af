/** Which children of a listener outlive the application's shutdown. */
module AppShutdownTheorems {
  import L = Lifecycle
  import LT = LifecycleTheorems
  import S = Supervisor
  import T = SupervisorTheorems
  import opened AppShutdown

  // ----- when a shutdown ends -----

  /** A close that has returned left no child. */
  lemma ReleasedHasNoChildren(g: S.State)
    requires S.Inv(g) && g.closer == S.Released
    ensures T.Drained(g) && Children(g) == {}
  {
    assert S.Queued([]) == {};
  }

  /** The state of a group that the application no longer keeps and whose listener is done. */
  lemma LeftOver(s: State, l: nat)
    requires Inv(s) && l < |s.owned| && l !in s.app.groups && s.app.listeners[l].life == L.Done
    ensures Children(s.owned[l].group) == s.owned[l].left - s.owned[l].group.joined
    ensures s.owned[l].group.closer != S.Abandoned ==> T.Drained(s.owned[l].group)
    ensures s.owned[l].left != {} ==> s.owned[l].first == Listener && s.owned[l].group.closer == S.Abandoned
  {
    assert Sound(s, l);
    var g := s.owned[l].group;
    if g.closer != S.Abandoned {
      assert g.closer == S.Released by { ClosedHasCloser(g); }
      ReleasedHasNoChildren(g);
    }
  }

  lemma ClosedHasCloser(g: S.State)
    requires S.Inv(g) && g.closed
    ensures g.closer != S.Nobody
  {
  }

  /**
   When shutdown ends a listener's children are all gone exactly if those are that were left when the
   listener was aborted in its own close.  None were left unless that happened: the group is drained if
   the application closed it, and if the listener closed it and was not aborted before its close returned.
   */
  lemma ChildrenWhenShutdownEnds(enabled: nat, states: seq<State>, actions: seq<Action>, i: nat, l: nat)
    requires Run(enabled, states, actions) && i < |actions| && actions[i] == App(L.FinishShutdown)
    requires l < |states[i + 1].owned|
    ensures var o := states[i + 1].owned[l];
            && (Children(o.group) == {} <==> o.left <= o.group.joined)
            && (o.first == Application || o.group.closer == S.Released ==> T.Drained(o.group) && o.left == {})
            && (o.left != {} ==> o.first == Listener && o.group.closer == S.Abandoned)
  {
    ReachableInv(enabled, states, actions, i);
    ReachableInv(enabled, states, actions, i + 1);
    StepAt(enabled, states, actions, i);
    EndIsDone(states[i], l);
    assert Sound(states[i + 1], l);
    LeftOver(states[i + 1], l);
  }

  lemma EndIsDone(s: State, l: nat)
    requires Inv(s) && Enabled(s, App(L.FinishShutdown)) && l < |s.owned|
    ensures s.app.groups == [] && s.app.listeners[l].life == L.Done
  {
  }

  // ----- what the application can rely on when it closes a group -----

  /** `actions` go on from `s` to `t`, where the shutdown ends. */
  ghost predicate Finishes(s: State, actions: seq<Action>, t: State)
    decreases |actions|
  {
    && actions != [] && Enabled(s, actions[0])
    && if actions[0] == App(L.FinishShutdown) then |actions| == 1 && t == Apply(s, actions[0])
       else Finishes(Apply(s, actions[0]), actions[1..], t)
  }

  /** However the shutdown goes on, no child of listener `l` outlives it. */
  ghost predicate Guaranteed(s: State, l: nat) {
    forall actions, t :: Finishes(s, actions, t) ==> l < |t.owned| && Children(t.owned[l].group) == {}
  }

  /** The application closed the group, or it has no children and gets none. */
  ghost predicate Safe(s: State, l: nat) {
    && Inv(s) && LT.ShuttingDown(s.app.main) && l < |s.owned|
    && (s.owned[l].first == Application || (s.owned[l].group.closed && Children(s.owned[l].group) == {}))
  }

  lemma GroupStepKeeps(s: State, a: Action, l: nat)
    requires Inv(s) && Enabled(s, a) && l < |s.owned| && s.owned[l].group.closed
    ensures var t := Apply(s, a);
            && l < |t.owned| && t.owned[l].first == s.owned[l].first && t.owned[l].group.closed
            && Children(t.owned[l].group) <= Children(s.owned[l].group)
  {
    assert Sound(s, l);
    match a {
      case App(b) =>
        if Aborts(s.app, b, l) {
          AbortInv(s.owned[l]);
        }
      case Group(k, b) => if k == l { ClosedAcceptsNothing(s.owned[l].group, b); }
      case _ => if a.l == l { FlipInv(s.owned[l], Listener); FlipInv(s.owned[l], Application); }
    }
  }

  lemma ShutdownGoesOn(s: State, a: Action)
    requires Enabled(s, a) && LT.ShuttingDown(s.app.main) && a != App(L.FinishShutdown)
    ensures LT.ShuttingDown(Apply(s, a).app.main)
  {
    if a.App? {
      LT.ShutdownDecreases(s.app, a.act);
    }
  }

  lemma SafeStep(s: State, a: Action, l: nat)
    requires Safe(s, l) && Enabled(s, a) && a != App(L.FinishShutdown)
    ensures Safe(Apply(s, a), l)
  {
    assert s.owned[l].group.closed by { assert Sound(s, l); }
    hide Enabled, Apply, Inv, LT.ShuttingDown;
    StepInv(s, a);
    ShutdownGoesOn(s, a);
    GroupStepKeeps(s, a, l);
  }

  lemma SafeEnd(s: State, l: nat)
    requires Safe(s, l) && Enabled(s, App(L.FinishShutdown))
    ensures Children(s.owned[l].group) == {}
    ensures Apply(s, App(L.FinishShutdown)).owned == s.owned
  {
    EndIsDone(s, l);
    LeftOver(s, l);
  }

  lemma {:induction false} SafeIsGuaranteed(s: State, l: nat, actions: seq<Action>, t: State)
    requires Safe(s, l) && Finishes(s, actions, t)
    ensures l < |t.owned| && Children(t.owned[l].group) == {}
    decreases |actions|
  {
    assert Enabled(s, actions[0]);
    hide Enabled, Apply, Safe;
    if actions[0] == App(L.FinishShutdown) {
      SafeEnd(s, l);
      assert l < |s.owned| by { SafeIndex(s, l); }
    } else {
      SafeStep(s, actions[0], l);
      SafeIsGuaranteed(Apply(s, actions[0]), l, actions[1..], t);
    }
  }

  lemma SafeIndex(s: State, l: nat)
    requires Safe(s, l)
    ensures l < |s.owned|
  {
  }
}
