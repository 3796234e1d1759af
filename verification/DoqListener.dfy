/**
 A DoQ listener as an object: the accept loop's semaphore, the stream semaphore
 of each connection, and the task group they share (src/readers/doq.rs).  Each
 method is one step of one of the loops, or the end of a task; its contract is
 an action of Admission.
 */
module DoqListener {
  import Supervisor
  import opened TaskGroup
  import opened Permits
  import opened Admission

  class Listener {
    const maxConnections: nat
    const maxStreams: nat
    const group: Group
    var connectionLimit: nat
    var accepting: bool
    var streamLimits: map<nat, nat>
    var admitting: set<nat>
    var kinds: map<nat, Kind>

    ghost function Accounts(): Ledger
      reads this
    {
      Ledger(maxConnections, maxStreams, kinds, connectionLimit, accepting, streamLimits, admitting)
    }

    ghost function Snapshot(): State
      reads this, group
    {
      State(group.Snapshot(), Accounts())
    }

    ghost predicate Valid()
      reads this, group
    {
      Inv(Snapshot())
    }

    constructor (maxConnections: nat, maxStreams: nat)
      ensures Valid() && Snapshot() == Init(maxConnections, maxStreams) && fresh(group)
    {
      this.maxConnections, this.maxStreams := maxConnections, maxStreams;
      group := new Group();
      connectionLimit, accepting := maxConnections, false;
      streamLimits, admitting, kinds := map[], {}, map[];
      new;
      InitInv(maxConnections, maxStreams);
    }

    lemma GroupIsValid()
      requires Valid()
      ensures group.Valid()
    {
      hide OfKind;
    }

    /** A task's future is dropped, and with it the permits it owns. */
    method DropTask(task: nat)
      modifies this`connectionLimit, this`streamLimits, this`admitting
      ensures Accounts() == Dropped(old(Accounts()), task)
    {
      if task in kinds {
        match kinds[task] {
          case Connection =>
            connectionLimit := connectionLimit + 1;
            if task in admitting {
              ReturnStreamPermit(task);
            }
            admitting := admitting - {task};
          case Stream(conn) =>
            ReturnStreamPermit(conn);
          case Unidirectional(_) =>
        }
      }
    }

    method ReturnStreamPermit(conn: nat)
      modifies this`streamLimits
      ensures streamLimits == Return(old(streamLimits), conn)
    {
      if conn in streamLimits {
        streamLimits := streamLimits[conn := streamLimits[conn] + 1];
      }
    }

    /** `spawn` of a task that owns its permit: an open group queues it, a closed one drops it on the spot. */
    method OfferTask(task: nat, kind: Kind)
      requires group.Valid() && CanOffer(Snapshot(), task)
      modifies this`connectionLimit, this`streamLimits, this`admitting, this`kinds, group
      ensures group.Valid() && Snapshot() == Offer(old(group.Snapshot()), old(Accounts()), task, kind)
      ensures task in group.accepted <==> !old(group.closed)
    {
      hide Supervisor.Inv;
      var refused := group.closed;
      group.SpawnCommand(task);
      kinds := kinds[task := kind];
      if refused {
        DropTask(task);
      }
    }

    // ----- the accept loop -----

    /** `acquire_owned` on connection_limit, once a permit is free. */
    method AcquireConnectionPermit()
      requires Valid() && !accepting && connectionLimit > 0
      modifies this
      ensures Valid() && Step(old(Snapshot()), TakeConnectionPermit, Snapshot())
    {
      hide Inv;
      StepInv(Snapshot(), TakeConnectionPermit);
      connectionLimit, accepting := connectionLimit - 1, true;
    }

    /** Spawn the connection's handler; true if it will run. */
    method SpawnConnection(task: nat) returns (accepted: bool)
      requires Valid() && accepting && CanOffer(Snapshot(), task)
      modifies this, group
      ensures Valid() && Step(old(Snapshot()), OfferConnection(task), Snapshot())
      ensures accepted <==> !old(group.closed)
      ensures !accepted ==> connectionLimit == old(connectionLimit) + 1
    {
      hide Inv, Offer, Supervisor.Inv, OfKind;
      GroupIsValid();
      StepInv(Snapshot(), OfferConnection(task));
      if group.closed {
        RefusedConnectionReturnsPermit(Snapshot(), task);
      }
      accepted := !group.closed;
      accepting := false;
      OfferTask(task, Connection);
      hide OfKind;
    }

    /** The listener is dropped between permit and spawn. */
    method AbandonPermit()
      requires Valid() && accepting
      modifies this
      ensures Valid() && Step(old(Snapshot()), LoseConnectionPermit, Snapshot())
    {
      hide Inv;
      StepInv(Snapshot(), LoseConnectionPermit);
      connectionLimit, accepting := connectionLimit + 1, false;
    }

    // ----- a connection's handler -----

    method CreateStreamLimit(conn: nat)
      requires Valid() && Enabled(Snapshot(), OpenStreams(conn))
      modifies this
      ensures Valid() && Step(old(Snapshot()), OpenStreams(conn), Snapshot())
    {
      hide Inv;
      StepInv(Snapshot(), OpenStreams(conn));
      streamLimits := streamLimits[conn := maxStreams];
    }

    method AcquireStreamPermit(conn: nat)
      requires Valid() && Enabled(Snapshot(), TakeStreamPermit(conn))
      modifies this
      ensures Valid() && Step(old(Snapshot()), TakeStreamPermit(conn), Snapshot())
    {
      hide Inv;
      StepInv(Snapshot(), TakeStreamPermit(conn));
      streamLimits := streamLimits[conn := streamLimits[conn] - 1];
      admitting := admitting + {conn};
    }

    method SpawnStream(conn: nat, task: nat) returns (accepted: bool)
      requires Valid() && Enabled(Snapshot(), OfferStream(conn, task))
      modifies this, group
      ensures Valid() && Step(old(Snapshot()), OfferStream(conn, task), Snapshot())
      ensures accepted <==> !old(group.closed)
      ensures !accepted ==> streamLimits == Return(old(streamLimits), conn)
    {
      hide Inv, Offer, Supervisor.Inv, OfKind, Return;
      GroupIsValid();
      StepInv(Snapshot(), OfferStream(conn, task));
      if group.closed {
        RefusedStreamReturnsPermit(Snapshot(), conn, task);
      }
      accepted := !group.closed;
      admitting := admitting - {conn};
      OfferTask(task, Stream(conn));
    }

    method SpawnUnidirectional(conn: nat, task: nat) returns (accepted: bool)
      requires Valid() && Enabled(Snapshot(), OfferUnidirectional(conn, task))
      modifies this, group
      ensures Valid() && Step(old(Snapshot()), OfferUnidirectional(conn, task), Snapshot())
      ensures accepted <==> !old(group.closed)
    {
      hide Inv, Offer, Supervisor.Inv, OfKind;
      GroupIsValid();
      StepInv(Snapshot(), OfferUnidirectional(conn, task));
      accepted := !group.closed;
      OfferTask(task, Unidirectional(conn));
    }

    // ----- the end of a task -----

    /** A task finishes, or is torn down after an abort: either way its permits come back. */
    method EndTask(task: nat)
      requires Valid() && task in group.live
      modifies this, group
      ensures Valid() && Step(old(Snapshot()), Action.Group(Supervisor.End(task)), Snapshot())
    {
      StepInv(Snapshot(), Action.Group(Supervisor.End(task)));
      assert group.Valid();
      hide Inv, Supervisor.Inv, Dropped;
      group.TaskEnds(task);
      DropTask(task);
    }
  }
}
