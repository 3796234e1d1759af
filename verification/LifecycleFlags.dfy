/** What the flags and the readiness channels mean, in terms of the steps that were taken. */
module LifecycleFlags {
  import opened Lifecycle
  import opened LifecycleTheorems

  ghost predicate Sent(actions: seq<Action>, j: nat, l: nat, bound: bool) {
    exists m :: 0 <= m < j && m < |actions| && actions[m] == SendReport(l, bound)
  }

  lemma SentNext(actions: seq<Action>, j: nat, l: nat, bound: bool)
    requires j < |actions|
    ensures Sent(actions, j + 1, l, bound) <==> Sent(actions, j, l, bound) || actions[j] == SendReport(l, bound)
  {
    if actions[j] == SendReport(l, bound) {
      assert Sent(actions, j + 1, l, bound);
    }
  }

  /** What a channel holds after a step. */
  lemma ReportStep(s: State, a: Action, l: nat)
    requires Enabled(s, a) && l < |Apply(s, a).listeners|
    ensures var r := Apply(s, a).listeners[l].report;
            if l >= |s.listeners| then r == Pending && !a.SendReport?
            else if a == SendReport(l, true) then r == Bound && s.listeners[l].report == Pending
            else if a == SendReport(l, false) then r == Refused && s.listeners[l].report == Pending
            else r == s.listeners[l].report || (r == Lost && s.listeners[l].report == Pending)
  {
    if OfListener(a) || a.AbortHandle? {
      ListenerReport(s, a, l);
    } else {
      MainReport(s, a, l);
    }
    hide Enabled, Apply;
  }

  lemma ListenerReport(s: State, a: Action, l: nat)
    requires Enabled(s, a) && l < |Apply(s, a).listeners| && (OfListener(a) || a.AbortHandle?)
    ensures l < |s.listeners|
    ensures var r := Apply(s, a).listeners[l].report;
            if a == SendReport(l, true) then r == Bound && s.listeners[l].report == Pending
            else if a == SendReport(l, false) then r == Refused && s.listeners[l].report == Pending
            else r == s.listeners[l].report || (r == Lost && s.listeners[l].report == Pending)
  {
  }

  lemma MainReport(s: State, a: Action, l: nat)
    requires Enabled(s, a) && l < |Apply(s, a).listeners| && !OfListener(a) && !a.AbortHandle?
    ensures var r := Apply(s, a).listeners[l].report;
            if l >= |s.listeners| then r == Pending else r == s.listeners[l].report
  {
  }

  lemma NoReportBeforeSpawn(s: State, a: Action, l: nat)
    requires Enabled(s, a) && l >= |s.listeners|
    ensures a != SendReport(l, true) && a != SendReport(l, false)
    ensures |s.listeners| <= |Apply(s, a).listeners|
  {
  }

  /** ReportStep as a relation of the two states. */
  ghost predicate Reports(s: State, a: Action, t: State, l: nat) {
    && (l >= |t.listeners| ==> l >= |s.listeners| && a != SendReport(l, true) && a != SendReport(l, false))
    && (l < |t.listeners| ==>
          var r := t.listeners[l].report;
          if l >= |s.listeners| then r == Pending && !a.SendReport?
          else if a == SendReport(l, true) then r == Bound && s.listeners[l].report == Pending
          else if a == SendReport(l, false) then r == Refused && s.listeners[l].report == Pending
          else r == s.listeners[l].report || (r == Lost && s.listeners[l].report == Pending))
  }

  lemma ReportAt(enabled: nat, states: seq<State>, actions: seq<Action>, k: nat, l: nat)
    requires Run(enabled, states, actions) && k < |actions|
    ensures Reports(states[k], actions[k], states[k + 1], l)
  {
    StepAt(enabled, states, actions, k);
    if l < |states[k + 1].listeners| {
      ReportStep(states[k], actions[k], l);
    } else {
      NoReportBeforeSpawn(states[k], actions[k], l);
    }
    hide Run, Enabled, Apply;
  }

  ghost predicate AllReport(states: seq<State>, actions: seq<Action>, l: nat) {
    && |states| == |actions| + 1 && states[0].listeners == []
    && forall k :: 0 <= k < |actions| ==> Reports(states[k], actions[k], states[k + 1], l)
  }

  lemma {:induction false} ReportIsSent(states: seq<State>, actions: seq<Action>, j: nat, l: nat)
    requires AllReport(states, actions, l) && j < |states|
    ensures l >= |states[j].listeners| ==> !Sent(actions, j, l, true) && !Sent(actions, j, l, false)
    ensures l < |states[j].listeners| ==>
              && (states[j].listeners[l].report == Bound <==> Sent(actions, j, l, true))
              && (states[j].listeners[l].report == Refused <==> Sent(actions, j, l, false))
    decreases j
  {
    if j > 0 {
      ReportIsSent(states, actions, j - 1, l);
      SentNext(actions, j - 1, l, true);
      SentNext(actions, j - 1, l, false);
      assert Reports(states[j - 1], actions[j - 1], states[j - 1 + 1], l);
      hide Sent;
    }
  }

  lemma RunReports(enabled: nat, states: seq<State>, actions: seq<Action>, l: nat)
    requires Run(enabled, states, actions)
    ensures AllReport(states, actions, l)
  {
    assert |states| == |actions| + 1 && states[0].listeners == [];
    hide Run, Reports;
    forall k | 0 <= k < |actions| ensures Reports(states[k], actions[k], states[k + 1], l) {
      ReportAt(enabled, states, actions, k, l);
    }
  }

  /**
   A channel holds a success exactly if its listener has reported one, a refusal exactly if it has
   reported that, and otherwise nothing, or the loss of its sender.
   */
  lemma ReportsAreTrue(enabled: nat, states: seq<State>, actions: seq<Action>, j: nat, l: nat)
    requires Run(enabled, states, actions) && j < |states| && l < |states[j].listeners|
    ensures states[j].listeners[l].report == Bound
            <==> exists m :: 0 <= m < j && m < |actions| && actions[m] == SendReport(l, true)
    ensures states[j].listeners[l].report == Refused
            <==> exists m :: 0 <= m < j && m < |actions| && actions[m] == SendReport(l, false)
  {
    RunReports(enabled, states, actions, l);
    ReportIsSent(states, actions, j, l);
    hide Run, AllReport;
  }

  /** Whenever the application is ready, every enabled listener of the latest start has reported success. */
  lemma ReadyMeansAllReported(enabled: nat, states: seq<State>, actions: seq<Action>, j: nat)
    requires Run(enabled, states, actions) && j < |states| && states[j].ready
    ensures |states[j].current| == enabled
    ensures forall i :: 0 <= i < enabled ==> Sent(actions, j, states[j].current[i], true)
  {
    ReadyMeansAllBound(enabled, states, actions, j);
    var s := states[j];
    forall i | 0 <= i < enabled ensures Sent(actions, j, s.current[i], true) {
      RunReports(enabled, states, actions, s.current[i]);
      ReportIsSent(states, actions, j, s.current[i]);
      hide Run, Sent, AllReport;
    }
  }

  // ----- the flags -----

  /** A listener has recorded a failure since the flag was last reset. */
  ghost predicate Recorded(actions: seq<Action>, j: nat) {
    exists m :: 0 <= m < j && m < |actions| && actions[m].StoreFailed?
                && forall i :: m < i < j && i < |actions| ==> actions[i] != ResetFailed
  }

  lemma RecordedNext(actions: seq<Action>, j: nat)
    requires j < |actions|
    ensures Recorded(actions, j + 1) <==> actions[j].StoreFailed? || (Recorded(actions, j) && actions[j] != ResetFailed)
  {
    if Recorded(actions, j) && actions[j] != ResetFailed {
      var m :| 0 <= m < j && m < |actions| && actions[m].StoreFailed?
               && forall i :: m < i < j && i < |actions| ==> actions[i] != ResetFailed;
      assert forall i :: m < i < j + 1 && i < |actions| ==> actions[i] != ResetFailed;
    }
    if Recorded(actions, j + 1) && !actions[j].StoreFailed? {
      var m :| 0 <= m < j + 1 && m < |actions| && actions[m].StoreFailed?
               && forall i :: m < i < j + 1 && i < |actions| ==> actions[i] != ResetFailed;
      assert m < j && actions[j] != ResetFailed;
    }
  }

  lemma FlagStep(s: State, a: Action)
    requires Enabled(s, a)
    ensures Apply(s, a).failed <==> a.StoreFailed? || (s.failed && a != ResetFailed)
    ensures Apply(s, a).cancelled <==> a == Cancel || s.cancelled
  {
  }

  ghost predicate FlagsChange(s: State, a: Action, t: State) {
    && (t.failed <==> a.StoreFailed? || (s.failed && a != ResetFailed))
    && (t.cancelled <==> a == Cancel || s.cancelled)
  }

  ghost predicate AllFlag(states: seq<State>, actions: seq<Action>) {
    && |states| == |actions| + 1 && !states[0].failed && !states[0].cancelled
    && forall k :: 0 <= k < |actions| ==> FlagsChange(states[k], actions[k], states[k + 1])
  }

  lemma RunFlags(enabled: nat, states: seq<State>, actions: seq<Action>)
    requires Run(enabled, states, actions)
    ensures AllFlag(states, actions)
  {
    assert |states| == |actions| + 1 && !states[0].failed && !states[0].cancelled;
    hide Run, Enabled, Apply;
    forall k | 0 <= k < |actions| ensures FlagsChange(states[k], actions[k], states[k + 1]) {
      StepAt(enabled, states, actions, k);
      FlagStep(states[k], actions[k]);
    }
  }

  ghost predicate Cancels(actions: seq<Action>, j: nat) {
    exists m :: 0 <= m < j && m < |actions| && actions[m] == Cancel
  }

  lemma CancelsNext(actions: seq<Action>, j: nat)
    requires j < |actions|
    ensures Cancels(actions, j + 1) <==> Cancels(actions, j) || actions[j] == Cancel
  {
    if actions[j] == Cancel {
      assert Cancels(actions, j + 1);
    }
  }

  lemma {:induction false} FlagsMean(states: seq<State>, actions: seq<Action>, j: nat)
    requires AllFlag(states, actions) && j < |states|
    ensures states[j].failed <==> Recorded(actions, j)
    ensures states[j].cancelled <==> Cancels(actions, j)
    decreases j
  {
    if j > 0 {
      FlagsMean(states, actions, j - 1);
      RecordedNext(actions, j - 1);
      CancelsNext(actions, j - 1);
      assert FlagsChange(states[j - 1], actions[j - 1], states[j - 1 + 1]);
      hide Recorded, Cancels;
    }
  }

  /** `failed` is set exactly if a listener has recorded a failure since a start last reset it. */
  lemma FailedMeansRecorded(enabled: nat, states: seq<State>, actions: seq<Action>, j: nat)
    requires Run(enabled, states, actions) && j < |states|
    ensures states[j].failed
            <==> exists m :: 0 <= m < j && m < |actions| && actions[m].StoreFailed?
                             && forall i :: m < i < j && i < |actions| ==> actions[i] != ResetFailed
  {
    RunFlags(enabled, states, actions);
    FlagsMean(states, actions, j);
    hide Run, AllFlag;
  }

  /** The token is cancelled exactly if some shutdown has cancelled it. */
  lemma CancelledMeansShutdown(enabled: nat, states: seq<State>, actions: seq<Action>, j: nat)
    requires Run(enabled, states, actions) && j < |states|
    ensures states[j].cancelled <==> exists m :: 0 <= m < j && m < |actions| && actions[m] == Cancel
  {
    RunFlags(enabled, states, actions);
    FlagsMean(states, actions, j);
    hide Run, AllFlag;
  }
}
