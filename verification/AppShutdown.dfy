/**
 The application together with the task groups of its listeners (src/app.rs,
 src/tasks.rs): one supervisor per listener.  A group may be closed by its own
 listener, when that one leaves its accept loop, and by the application's
 shutdown; an aborted listener drops the close it waits in.
 */
module AppShutdown {
  import L = Lifecycle
  import S = Supervisor
  import T = SupervisorTheorems

  /** Who closed a group. */
  datatype Party = Nobody | Listener | Application

  /** A group, who closed it, and the tasks its listener left unjoined when it was aborted in its close. */
  datatype Owned = Owned(group: S.State, first: Party, left: set<nat>)

  datatype State = State(
    app: L.State,
    owned: seq<Owned>, // by listener
    called: set<nat>)  // the groups whose close the present shutdown has called

  datatype Action =
    | App(act: L.Action)
    | ListenerCloses(l: nat)
    | AppCloses(l: nat)
    | Group(l: nat, step: S.Action)

  const NEW := Owned(S.INIT, Nobody, {})

  function Init(enabled: nat): State {
    State(L.Init(enabled), [], {})
  }

  /** Accepted tasks that have not been joined: queued, running, or ended a moment ago. */
  function Children(g: S.State): set<nat> {
    g.accepted - g.joined
  }

  /** The call that closed the group has not returned. */
  predicate InClose(g: S.State) {
    g.closer == S.HoldsSender || g.closer == S.Waiting
  }

  predicate Closes(o: Owned, party: Party) {
    o.first == party && InClose(o.group)
  }

  // ----- the steps -----

  predicate MayClose(o: Owned) {
    S.GroupExists(o.group)
  }

  /** What the groups add to the steps of the application and its listeners. */
  predicate IsFree(s: State, a: L.Action)
    requires L.Enabled(s.app, a)
  {
    match a
    case ReturnOk(l) => l < |s.owned| && !Closes(s.owned[l], Listener)
    case ReturnErr(l) => l < |s.owned| && !Closes(s.owned[l], Listener)
    case AbortHandle => // between closing and sending there is no await at which the abort could take effect
      s.app.handles[0] < |s.owned| && (s.owned[s.app.handles[0]].first == Listener ==>
                                         s.owned[s.app.handles[0]].group.closer != S.HoldsSender)
    case CloseGroups => // join_all: every close has been called and has returned
      forall l :: l in s.app.groups ==> l in s.called && l < |s.owned| && !Closes(s.owned[l], Application)
    case _ => true
  }

  predicate Enabled(s: State, a: Action) {
    match a
    case App(a) => L.Enabled(s.app, a) && IsFree(s, a)
    case ListenerCloses(l) =>
      l < |s.owned| && L.Is(s.app, l, L.Running) && !Closes(s.owned[l], Listener) && MayClose(s.owned[l])
    case AppCloses(l) =>
      s.app.main.Closing? && l in s.app.groups && l !in s.called && l < |s.owned| && MayClose(s.owned[l])
    case Group(l, a) =>
      && l < |s.owned| && S.Enabled(s.owned[l].group, a)
      && a != S.Flip && a != S.AbandonWait
      && (a == S.DropGroup ==> l !in s.app.groups && L.Is(s.app, l, L.Done))
  }

  function Close(o: Owned, party: Party): Owned {
    o.(group := S.FlipNext(o.group), first := if o.group.closed then o.first else party)
  }

  /** An aborted listener drops the close it waits in, if it does. */
  function Abort(o: Owned): Owned {
    if o.first == Listener && o.group.closer == S.Waiting
    then o.(group := o.group.(closer := S.Abandoned), left := Children(o.group)) else o
  }

  function Groups(s: State, a: L.Action): seq<Owned>
    requires L.Enabled(s.app, a) && IsFree(s, a)
  {
    match a
    case SpawnListener => if s.app.main.left > 0 then s.owned + [NEW] else s.owned
    case AbortHandle => s.owned[s.app.handles[0] := Abort(s.owned[s.app.handles[0]])]
    case _ => s.owned
  }

  function Apply(s: State, a: Action): State
    requires Enabled(s, a)
  {
    match a
    case App(a) => State(L.Apply(s.app, a), Groups(s, a), if a.CloseGroups? then {} else s.called)
    case ListenerCloses(l) => s.(owned := s.owned[l := Close(s.owned[l], Listener)])
    case AppCloses(l) => s.(owned := s.owned[l := Close(s.owned[l], Application)], called := s.called + {l})
    case Group(l, a) => s.(owned := s.owned[l := s.owned[l].(group := S.Apply(s.owned[l].group, a))])
  }

  ghost predicate Step(s: State, a: Action, t: State) {
    Enabled(s, a) && t == Apply(s, a)
  }

  ghost predicate Run(enabled: nat, states: seq<State>, actions: seq<Action>) {
    && |states| == |actions| + 1
    && states[0] == Init(enabled)
    && forall i :: 0 <= i < |actions| ==> Step(states[i], actions[i], states[i + 1])
  }

  lemma StepAt(enabled: nat, states: seq<State>, actions: seq<Action>, i: nat)
    requires Run(enabled, states, actions) && i < |actions|
    ensures Enabled(states[i], actions[i]) && states[i + 1] == Apply(states[i], actions[i])
  {
    assert Step(states[i], actions[i], states[i + 1]);
  }

  // ----- the invariant -----

  /** What holds of one group: `tracked` by the application, its close `called`, its listener `running`. */
  ghost predicate GroupInv(o: Owned, tracked: bool, called: bool, closing: bool, life: L.Life) {
    && S.Inv(o.group)
    && (o.first == Nobody <==> !o.group.closed)
    && (tracked ==> MayClose(o))
    && (called ==> tracked && closing && o.group.closed)
    && (!tracked ==> o.group.closed)
    && (Closes(o, Application) ==> called)
    && (Closes(o, Listener) ==> life == L.Running)
    && (o.group.closer == S.Abandoned ==> o.first == Listener && life == L.Done)
    && (if o.group.closer == S.Abandoned then Children(o.group) <= o.left <= o.group.accepted else o.left == {})
  }

  ghost predicate Sound(s: State, l: nat)
    requires l < |s.owned| && |s.owned| == |s.app.listeners|
  {
    GroupInv(s.owned[l], l in s.app.groups, l in s.called, s.app.main.Closing?, s.app.listeners[l].life)
  }

  ghost predicate Inv(s: State) {
    && L.Inv(s.app)
    && |s.owned| == |s.app.listeners|
    && L.Ids(s.app, s.app.groups)
    && (forall l :: l in s.called ==> l in s.app.groups)
    && (forall l :: 0 <= l < |s.owned| ==> Sound(s, l))
  }

  lemma ClosedAcceptsNothing(g: S.State, a: S.Action)
    requires S.Inv(g) && S.Enabled(g, a) && a != S.Flip && a != S.AbandonWait
    ensures S.Inv(S.Apply(g, a)) && S.Apply(g, a).closed == g.closed
    ensures g.closed ==> S.Apply(g, a).accepted == g.accepted && Children(S.Apply(g, a)) <= Children(g)
    ensures S.Apply(g, a).closer == S.Abandoned <==> g.closer == S.Abandoned
    ensures InClose(S.Apply(g, a)) ==> InClose(g)
    ensures a != S.DropGroup && S.GroupExists(g) ==> S.GroupExists(S.Apply(g, a))
  {
    S.StepInv(g, a);
  }

  lemma FlipInv(o: Owned, party: Party)
    requires S.Inv(o.group) && MayClose(o) && party != Nobody
    ensures S.Inv(Close(o, party).group) && Close(o, party).group.closed && MayClose(Close(o, party))
    ensures o.group.closed ==> Close(o, party) == o
    ensures !o.group.closed ==> Close(o, party).first == party && Close(o, party).group.closer != S.Abandoned
    ensures Children(Close(o, party).group) == Children(o.group)
  {
    S.StepInv(o.group, S.Flip);
  }

  lemma GroupStepInv(s: State, l: nat, a: S.Action)
    requires Inv(s) && Enabled(s, Group(l, a))
    ensures Inv(Apply(s, Group(l, a)))
  {
    assert Sound(s, l);
    ClosedAcceptsNothing(s.owned[l].group, a);
    var t := Apply(s, Group(l, a));
    hide S.Inv, S.Enabled, S.Apply, L.Inv, L.Is;
    forall k | 0 <= k < |t.owned| ensures Sound(t, k) {
      assert Sound(s, k);
    }
  }

  lemma CloseInv(s: State, a: Action)
    requires Inv(s) && Enabled(s, a) && (a.ListenerCloses? || a.AppCloses?)
    ensures Inv(Apply(s, a))
  {
    assert Sound(s, a.l);
    FlipInv(s.owned[a.l], if a.AppCloses? then Application else Listener);
    var t := Apply(s, a);
    hide S.Inv, L.Inv, Close;
    forall k | 0 <= k < |t.owned| ensures Sound(t, k) {
      assert Sound(s, k);
    }
  }

  /** The listener that is stopped by an abort, if `a` is one. */
  predicate Aborts(s: L.State, a: L.Action, l: nat) {
    a.AbortHandle? && s.handles != [] && l == s.handles[0]
  }

  /** What a step of the application or of a listener does to the life of listener `l`. */
  lemma LifeStep(s: L.State, a: L.Action, l: nat)
    requires L.Enabled(s, a) && l < |s.listeners|
    ensures var t := L.Apply(s, a);
            && l < |t.listeners|
            && (s.listeners[l].life == L.Running && t.listeners[l].life != L.Running
                ==> a == L.ReturnOk(l) || a == L.ReturnErr(l) || Aborts(s, a, l))
            && (Aborts(s, a, l) ==> t.listeners[l].life == L.Done)
            && (s.listeners[l].life == L.Done ==> t.listeners[l].life == L.Done)
  {
    if L.OfListener(a) || a.AbortHandle? {
      ListenerLife(s, a, l);
    } else {
      MainKeepsLives(s, a, l);
    }
    hide L.Enabled, L.Apply;
  }

  lemma ListenerLife(s: L.State, a: L.Action, l: nat)
    requires L.Enabled(s, a) && l < |s.listeners| && (L.OfListener(a) || a.AbortHandle?)
    ensures var t := L.Apply(s, a);
            && |t.listeners| == |s.listeners|
            && (s.listeners[l].life == L.Running && t.listeners[l].life != L.Running
                ==> a == L.ReturnOk(l) || a == L.ReturnErr(l) || Aborts(s, a, l))
            && (Aborts(s, a, l) ==> t.listeners[l].life == L.Done)
            && (s.listeners[l].life == L.Done ==> t.listeners[l].life == L.Done)
  {
  }

  lemma MainKeepsLives(s: L.State, a: L.Action, l: nat)
    requires L.Enabled(s, a) && l < |s.listeners| && !L.OfListener(a) && !a.AbortHandle?
    ensures l < |L.Apply(s, a).listeners| && L.Apply(s, a).listeners[l] == s.listeners[l]
  {
  }

  /** And what it does to the groups the application keeps. */
  lemma GroupsStep(s: L.State, a: L.Action)
    requires L.Enabled(s, a)
    ensures var t := L.Apply(s, a);
            && |t.listeners| == |s.listeners| + (if a.SpawnListener? && s.main.left > 0 then 1 else 0)
            && (s.main.Closing? && !t.main.Closing? ==> a.CloseGroups?)
            && (if a.CloseGroups? then t.groups == []
                else if a.SpawnListener? && s.main.left > 0 then t.groups == s.groups + [|s.listeners|]
                else t.groups == s.groups)
  {
  }

  /** What an abort does to a group. */
  lemma AbortInv(o: Owned)
    requires S.Inv(o.group) && (o.first == Listener ==> o.group.closer != S.HoldsSender)
    ensures S.Inv(Abort(o).group) && !Closes(Abort(o), Listener)
    ensures Abort(o).first == o.first && Abort(o).group.closed == o.group.closed && MayClose(Abort(o)) == MayClose(o)
    ensures Children(Abort(o).group) == Children(o.group) && Abort(o).group.joined == o.group.joined
    ensures Abort(o) != o ==> Abort(o).left == Children(o.group) && Abort(o).group.closer == S.Abandoned
                              && o.group.closer == S.Waiting && o.first == Listener
  {
    if o.group.closer == S.Waiting {
      S.StepInv(o.group, S.AbandonWait);
    }
  }

  lemma OldGroupInv(s: State, a: L.Action, l: nat)
    requires Inv(s) && Enabled(s, App(a)) && l < |s.owned|
    ensures |Apply(s, App(a)).owned| == |Apply(s, App(a)).app.listeners| && Sound(Apply(s, App(a)), l)
  {
    LifeStep(s.app, a, l);
    GroupsStep(s.app, a);
    assert Sound(s, l);
    if Aborts(s.app, a, l) {
      AbortInv(s.owned[l]);
    }
    hide S.Inv, L.Inv, L.Enabled, L.Apply, Abort;
    var t := Apply(s, App(a));
    assert t.owned[l] == if Aborts(s.app, a, l) then Abort(s.owned[l]) else s.owned[l];
  }

  lemma NewGroupInv(s: State, a: L.Action)
    requires Inv(s) && Enabled(s, App(a)) && a.SpawnListener? && s.app.main.left > 0
    ensures |Apply(s, App(a)).owned| == |Apply(s, App(a)).app.listeners| == |s.owned| + 1
    ensures Sound(Apply(s, App(a)), |s.owned|)
  {
    var t := Apply(s, App(a));
    hide L.Inv;
    assert |s.owned| !in s.called;
    assert t.app.groups[|s.app.groups|] == |s.owned|;
    assert S.Queued([]) == {};
  }

  lemma AppStepInv(s: State, a: L.Action)
    requires Inv(s) && Enabled(s, App(a))
    ensures Inv(Apply(s, App(a)))
  {
    L.StepInv(s.app, a);
    var t := Apply(s, App(a));
    if a.SpawnListener? && s.app.main.left > 0 {
      NewGroupInv(s, a);
    }
    forall l | 0 <= l < |s.owned| ensures |t.owned| == |t.app.listeners| && Sound(t, l) {
      OldGroupInv(s, a, l);
    }
    GroupsExist(s, a);
    hide L.Inv, Sound;
  }

  lemma GroupsExist(s: State, a: L.Action)
    requires Inv(s) && Enabled(s, App(a))
    ensures var t := Apply(s, App(a));
            && |t.owned| == |t.app.listeners| && L.Ids(t.app, t.app.groups)
            && (forall l :: l in t.called ==> l in t.app.groups)
            && |t.owned| == |s.owned| + (if a.SpawnListener? && s.app.main.left > 0 then 1 else 0)
  {
    hide L.Inv, Sound;
  }

  lemma StepInv(s: State, a: Action)
    requires Inv(s) && Enabled(s, a)
    ensures Inv(Apply(s, a))
  {
    hide Inv;
    match a {
      case App(b) => AppStepInv(s, b);
      case Group(l, b) => GroupStepInv(s, l, b);
      case _ => CloseInv(s, a);
    }
  }

  lemma {:induction false} ReachableInv(enabled: nat, states: seq<State>, actions: seq<Action>, i: nat)
    requires Run(enabled, states, actions) && i < |states|
    ensures Inv(states[i])
  {
    if i > 0 {
      ReachableInv(enabled, states, actions, i - 1);
      StepAt(enabled, states, actions, i - 1);
      hide *;
      StepInv(states[i - 1], actions[i - 1]);
    }
  }
}
