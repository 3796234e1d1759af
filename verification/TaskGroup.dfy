/**
 The supervisor as an object: the locked sections of its callers, and the
 actor's select loop and drain loop.  Contracts are the actions of Supervisor.
 */
module TaskGroup {
  import opened Supervisor
  import opened SupervisorTheorems

  class Group {
    var closed: bool
    var hasSender: bool
    var queue: seq<Command>
    var actor: Actor
    var tasks: set<nat>
    var live: set<nat>
    var closer: Closer
    var completed: bool
    ghost var accepted: set<nat>
    ghost var rejected: set<nat>
    ghost var joined: set<nat>
    ghost var orphaned: set<nat>

    ghost function Snapshot(): State
      reads this
    {
      State(closed, hasSender, queue, actor, tasks, live, closer, completed, accepted, rejected, joined, orphaned)
    }

    ghost predicate Valid()
      reads this
    {
      Inv(Snapshot())
    }

    constructor ()
      ensures Valid() && Snapshot() == INIT
    {
      closed, hasSender, queue, actor := false, false, [], NotStarted;
      tasks, live, closer, completed := {}, {}, Nobody, false;
      accepted, rejected, joined, orphaned := {}, {}, {}, {};
    }

    // ----- the callers -----

    /** spawn_command, all of it under the state lock; the first task starts the actor. */
    method SpawnCommand(task: nat)
      requires Valid() && Enabled(Snapshot(), SpawnTask(task))
      modifies this
      ensures Valid() && Step(old(Snapshot()), SpawnTask(task), Snapshot())
      ensures task in accepted <==> !old(closed)
    {
      StepInv(Snapshot(), SpawnTask(task));
      hide Inv;
      if closed {
        rejected := rejected + {task};
        return;
      }
      if !hasSender {
        actor := if actor == NotStarted then Serving else actor;
        hasSender := true;
      }
      queue := queue + [Spawn(task)];
      accepted := accepted + {task};
    }

    /** The locked part of close_and_wait_until: true if this caller must send Shutdown. */
    method FlipClosed() returns (mustSend: bool)
      requires Valid() && GroupExists(Snapshot())
      modifies this
      ensures Valid() && Step(old(Snapshot()), Flip, Snapshot())
      ensures mustSend <==> !old(closed) && old(hasSender)
    {
      StepInv(Snapshot(), Flip);
      hide Inv;
      if closed {
        return false;
      }
      closed := true;
      mustSend := hasSender;
      closer := if mustSend then HoldsSender else Released;
    }

    method SendShutdownCommand()
      requires Valid() && closer == HoldsSender
      modifies this
      ensures Valid() && Step(old(Snapshot()), SendShutdown, Snapshot())
    {
      StepInv(Snapshot(), SendShutdown);
      hide Inv;
      queue := queue + [Shutdown];
      closer := Waiting;
    }

    /** The waiting caller's future is dropped; the actor goes on. */
    method AbandonTheWait()
      requires Valid() && closer == Waiting
      modifies this
      ensures Valid() && Step(old(Snapshot()), AbandonWait, Snapshot())
    {
      StepInv(Snapshot(), AbandonWait);
      hide Inv;
      closer := Abandoned;
    }

    // ----- the actor -----

    /** One command from the queue. */
    method ReceiveCommand()
      requires Valid() && actor == Serving && queue != []
      modifies this
      ensures Valid() && Step(old(Snapshot()), Receive, Snapshot())
    {
      StepInv(Snapshot(), Receive);
      hide Inv;
      var command := queue[0];
      queue := queue[1..];
      match command {
        case Spawn(task) => tasks, live := tasks + {task}, live + {task};
        case Shutdown => actor := Draining;
      }
    }

    method JoinNext(task: nat)
      requires Valid() && Enabled(Snapshot(), Join(task))
      modifies this
      ensures Valid() && Step(old(Snapshot()), Join(task), Snapshot())
    {
      StepInv(Snapshot(), Join(task));
      hide Inv;
      tasks := tasks - {task};
      joined := joined + {task};
    }

    /** A task ends by itself or is torn down after an abort; the runtime decides when. */
    method TaskEnds(task: nat)
      requires Valid() && task in live
      modifies this
      ensures Valid() && Step(old(Snapshot()), End(task), Snapshot())
    {
      StepInv(Snapshot(), End(task));
      hide Inv;
      live := live - {task};
    }

    method AbortAll()
      requires Valid() && Enabled(Snapshot(), DeadlinePasses)
      modifies this
      ensures Valid() && Step(old(Snapshot()), DeadlinePasses, Snapshot())
    {
      StepInv(Snapshot(), DeadlinePasses);
      hide Inv;
      actor := Aborting;
    }

    method Finish()
      requires Valid() && (actor == Draining || actor == Aborting) && tasks == {}
      modifies this
      ensures Valid() && Step(old(Snapshot()), Complete, Snapshot())
      ensures completed && accepted == old(accepted) && rejected == old(rejected) && closed == old(closed)
      ensures closer == if old(closer) == Waiting then Released else old(closer)
    {
      StepInv(Snapshot(), Complete);
      hide Inv;
      actor, completed := Stopped, true;
      closer := if closer == Waiting then Released else closer;
    }

    /** One turn of the drain: `*` stands for the runtime's choice of what happens next. */
    method DrainTurn() returns (ghost a: Action)
      requires Valid() && (actor == Draining || actor == Aborting) && tasks != {}
      modifies this
      ensures Valid() && (actor == Draining || actor == Aborting)
      ensures Advances(a) && Step(old(Snapshot()), a, Snapshot())
      ensures accepted == old(accepted) && rejected == old(rejected) && closed == old(closed) && closer == old(closer)
      ensures |tasks| + |live| + PhaseRank(Snapshot()) < |old(tasks)| + |old(live)| + PhaseRank(old(Snapshot()))
    {
      hide Inv;
      var deadlinePassed: bool := *;
      if actor == Draining && deadlinePassed {
        a := DeadlinePasses;
        AbortAll();
      } else if tasks <= live {
        var task :| task in tasks;
        a := End(task);
        TaskEnds(task);
      } else {
        var task :| task in tasks && task !in live;
        a := Join(task);
        JoinNext(task);
      }
    }

    /**
     The drain after Shutdown: join tasks as they end until the deadline, then abort the rest and
     join them.  It terminates because aborted tasks do end.
     */
    method Drain() returns (ghost actions: seq<Action>)
      requires Valid() && actor == Draining
      modifies this
      ensures Valid() && completed && closer == (if old(closer) == Waiting then Released else old(closer))
      ensures Drained(Snapshot()) && accepted == old(accepted) && rejected == old(rejected) && closed
      ensures Leads(old(Snapshot()), actions, Snapshot())
    {
      CompletedIsDrained(Snapshot());
      actions := [];
      assert Advances(Complete);
      assert Leads(Snapshot(), actions, Snapshot());
      hide Inv, Leads, Drained, Step, Advances;
      while tasks != {}
        invariant Valid() && (actor == Draining || actor == Aborting)
        invariant accepted == old(accepted) && rejected == old(rejected) && closed && closer == old(closer)
        invariant Leads(old(Snapshot()), actions, Snapshot())
        decreases |tasks| + |live| + PhaseRank(Snapshot())
      {
        ghost var before := Snapshot();
        ghost var a := DrainTurn();
        LeadsOn(old(Snapshot()), actions, before, a, Snapshot());
        actions := actions + [a];
      }
      ghost var before := Snapshot();
      Finish();
      LeadsOn(old(Snapshot()), actions, before, Complete, Snapshot());
      actions := actions + [Complete];
      CompletedIsDrained(Snapshot());
    }
  }
}
