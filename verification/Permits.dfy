/**
 The permit ledger of a DoQ listener (src/readers/doq.rs): one semaphore for
 connections, one for the streams of each connection, and tasks that own the
 permit moved into them until they are dropped.
 */
module Permits {
  import opened Counting

  /** A task carries the permit of what it is; `conn` is the task id of the connection's handler. */
  datatype Kind = Connection | Unidirectional(conn: nat) | Stream(conn: nat)

  datatype Ledger = Ledger(
    maxConnections: nat,
    maxStreams: nat,
    kinds: map<nat, Kind>,  // every task ever offered to the group
    listener: nat,          // free permits of connection_limit
    accepting: bool,        // the accept loop holds a permit it has not yet moved
    streams: map<nat, nat>, // free permits of each connection's stream_limit
    admitting: set<nat>)    // handlers whose stream loop holds a permit it has not yet moved

  function Return(streams: map<nat, nat>, conn: nat): map<nat, nat> {
    if conn in streams then streams[conn := streams[conn] + 1] else streams
  }

  /** What a task drops when it ends: its permit, and a handler also the one its stream loop holds. */
  function Dropped(l: Ledger, task: nat): Ledger {
    if task !in l.kinds then l
    else
      match l.kinds[task]
      case Connection =>
        l.(listener := l.listener + 1,
           streams := if task in l.admitting then Return(l.streams, task) else l.streams,
           admitting := l.admitting - {task})
      case Stream(conn) => l.(streams := Return(l.streams, conn))
      case Unidirectional(_) => l
  }

  // ----- conservation -----

  function OfKind(kinds: map<nat, Kind>, tasks: set<nat>, kind: Kind): set<nat> {
    set task | task in tasks && task in kinds && kinds[task] == kind
  }

  /** `tasks` own their permits; `moving` is the kind of a permit on its way into a task, if any. */
  ghost predicate Balanced(l: Ledger, tasks: set<nat>, moving: set<Kind>) {
    && l.listener + |OfKind(l.kinds, tasks, Connection)| + One(l.accepting) + One(Connection in moving)
       == l.maxConnections
    && forall conn :: conn in l.streams ==>
         l.streams[conn] + |OfKind(l.kinds, tasks, Stream(conn))| + One(conn in l.admitting) + One(Stream(conn) in moving)
         == l.maxStreams
  }

  ghost predicate Known(l: Ledger, tasks: set<nat>, live: set<nat>) {
    && tasks + l.streams.Keys <= l.kinds.Keys
    && (forall task :: task in tasks && l.kinds[task].Stream? ==> l.kinds[task].conn in l.streams)
    && (forall conn :: conn in l.admitting ==> conn in live && conn in l.streams && l.kinds[conn] == Connection)
  }

  ghost predicate Conserved(l: Ledger, tasks: set<nat>, live: set<nat>) {
    Known(l, tasks, live) && Balanced(l, tasks, {})
  }

  // ----- one task more or less -----

  lemma WithoutTask(kinds: map<nat, Kind>, tasks: set<nat>, task: nat, kind: Kind)
    requires task in tasks && task in kinds
    ensures |OfKind(kinds, tasks - {task}, kind)| == |OfKind(kinds, tasks, kind)| - One(kinds[task] == kind)
  {
    assert OfKind(kinds, tasks - {task}, kind) == OfKind(kinds, tasks, kind) - {task};
    assert kinds[task] == kind <==> task in OfKind(kinds, tasks, kind);
  }

  lemma NewNameIrrelevant(kinds: map<nat, Kind>, tasks: set<nat>, task: nat, added: Kind, kind: Kind)
    requires task !in tasks
    ensures OfKind(kinds[task := added], tasks, kind) == OfKind(kinds, tasks, kind)
  {
  }

  lemma MoreOfKind(kinds: map<nat, Kind>, tasks: set<nat>, task: nat, added: Kind, kind: Kind)
    requires task !in tasks
    ensures OfKind(kinds[task := added], tasks + {task}, kind)
            == OfKind(kinds, tasks, kind) + (if added == kind then {task} else {})
    ensures task !in OfKind(kinds, tasks, kind)
  {
    NewNameIrrelevant(kinds, tasks, task, added, kind);
    var more := kinds[task := added];
    forall t | t in OfKind(more, tasks + {task}, kind) && t != task ensures t in OfKind(more, tasks, kind) {
    }
    assert task in OfKind(more, tasks + {task}, kind) <==> added == kind;
  }

  lemma WithTask(kinds: map<nat, Kind>, tasks: set<nat>, task: nat, added: Kind, kind: Kind)
    requires task !in tasks
    ensures |OfKind(kinds[task := added], tasks + {task}, kind)| == |OfKind(kinds, tasks, kind)| + One(added == kind)
  {
    MoreOfKind(kinds, tasks, task, added, kind);
    hide OfKind;
  }

  lemma EndKnown(l: Ledger, tasks: set<nat>, live: set<nat>, task: nat)
    requires Known(l, tasks, live) && task in tasks && task in live
    ensures Known(Dropped(l, task), tasks - {task}, live - {task}) && task in l.kinds
    ensures Dropped(l, task).streams.Keys == l.streams.Keys
    ensures l.kinds[task].Stream? ==> l.kinds[task].conn in l.streams
    ensures task in l.admitting ==> l.kinds[task] == Connection && task in l.streams
  {
  }

  lemma RefuseKnown(l: Ledger, tasks: set<nat>, live: set<nat>, task: nat, kind: Kind)
    requires Known(l, tasks, live) && task !in l.kinds
    requires kind.Stream? ==> kind.conn in l.streams
    ensures Known(Dropped(l.(kinds := l.kinds[task := kind]), task), tasks, live)
    ensures task !in l.admitting && task !in tasks && task !in l.streams
  {
  }

  /** A task that ends, however it ends, gives back exactly what it owned. */
  lemma EndConserves(l: Ledger, tasks: set<nat>, live: set<nat>, task: nat)
    requires Conserved(l, tasks, live) && task in tasks && task in live
    ensures Conserved(Dropped(l, task), tasks - {task}, live - {task})
  {
    EndKnown(l, tasks, live, task);
    WithoutTask(l.kinds, tasks, task, Connection);
    var m, rest := Dropped(l, task), tasks - {task};
    hide Known, OfKind;
    forall conn | conn in m.streams
      ensures m.streams[conn] + |OfKind(m.kinds, rest, Stream(conn))| + One(conn in m.admitting) + One(Stream(conn) in {})
              == m.maxStreams
    {
      EndBalancesStream(l, tasks, task, conn);
    }
  }

  lemma EndBalancesStream(l: Ledger, tasks: set<nat>, task: nat, conn: nat)
    requires Balanced(l, tasks, {}) && task in tasks && task in l.kinds && conn in l.streams
    requires task in l.admitting ==> l.kinds[task] == Connection
    ensures var m := Dropped(l, task);
            && conn in m.streams
            && m.streams[conn] + |OfKind(m.kinds, tasks - {task}, Stream(conn))| + One(conn in m.admitting) == m.maxStreams
  {
    WithoutTask(l.kinds, tasks, task, Stream(conn));
    hide OfKind;
  }

  /** A permit that moves into an accepted task stays accounted for. */
  lemma AcceptConserves(l: Ledger, tasks: set<nat>, live: set<nat>, task: nat, kind: Kind)
    requires Known(l, tasks, live) && Balanced(l, tasks, {kind}) && task !in l.kinds
    requires kind.Stream? ==> kind.conn in l.streams
    ensures Conserved(l.(kinds := l.kinds[task := kind]), tasks + {task}, live)
  {
    var kinds := l.kinds[task := kind];
    WithTask(l.kinds, tasks, task, kind, Connection);
    forall conn | conn in l.streams
      ensures |OfKind(kinds, tasks + {task}, Stream(conn))|
              == |OfKind(l.kinds, tasks, Stream(conn))| + One(kind == Stream(conn))
    {
      WithTask(l.kinds, tasks, task, kind, Stream(conn));
    }
    hide OfKind;
  }

  /** A permit that moves into a task the group refuses comes straight back. */
  lemma RefuseConserves(l: Ledger, tasks: set<nat>, live: set<nat>, task: nat, kind: Kind)
    requires Known(l, tasks, live) && Balanced(l, tasks, {kind}) && task !in l.kinds
    requires kind.Stream? ==> kind.conn in l.streams
    ensures Conserved(Dropped(l.(kinds := l.kinds[task := kind]), task), tasks, live)
  {
    RefuseKnown(l, tasks, live, task, kind);
    hide Known;
    var kinds := l.kinds[task := kind];
    NewNameIrrelevant(l.kinds, tasks, task, kind, Connection);
    forall conn | conn in l.streams
      ensures OfKind(kinds, tasks, Stream(conn)) == OfKind(l.kinds, tasks, Stream(conn))
    {
      NewNameIrrelevant(l.kinds, tasks, task, kind, Stream(conn));
    }
    hide OfKind;
  }

  /** Between the accept loop and the semaphore a permit is merely moved. */
  lemma TakeConserves(l: Ledger, tasks: set<nat>, live: set<nat>)
    requires Conserved(l, tasks, live)
    ensures !l.accepting && l.listener > 0 ==>
              Conserved(l.(listener := l.listener - 1, accepting := true), tasks, live)
    ensures l.accepting ==> Conserved(l.(listener := l.listener + 1, accepting := false), tasks, live)
  {
    hide OfKind;
  }

  lemma AdmitConserves(l: Ledger, tasks: set<nat>, live: set<nat>, conn: nat)
    requires Conserved(l, tasks, live)
    requires conn in live && conn in l.kinds && l.kinds[conn] == Connection
    requires conn in l.streams && conn !in l.admitting && l.streams[conn] > 0
    ensures Conserved(l.(streams := l.streams[conn := l.streams[conn] - 1], admitting := l.admitting + {conn}), tasks, live)
  {
    hide OfKind;
  }

  /** A new connection starts with its full number of stream permits. */
  lemma OpenConserves(l: Ledger, tasks: set<nat>, live: set<nat>, conn: nat)
    requires Conserved(l, tasks, live) && conn in l.kinds && conn !in l.streams
    ensures Conserved(l.(streams := l.streams[conn := l.maxStreams]), tasks, live)
  {
    assert OfKind(l.kinds, tasks, Stream(conn)) == {};
  }
}
