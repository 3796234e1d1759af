/**
 Every action of the pool keeps the invariant, so every reachable state has it.
 One lemma for each kind of section; each shows how the ownership table changes
 and hands the accounting to PoolOwnership.
 */
module PoolInvariant {
  import opened Wrappers
  import opened PoolProtocol
  import opened PoolOwnership

  lemma EmptyInv(max: nat)
    ensures Inv(Empty(max))
  {
    assert forall h :: HoldOf(Empty(max), h).None?;
    assert Held(Empty(max)) == map[];
  }

  /** The closing step of every proof here: the table of the new state is accounted for. */
  lemma Close(s: State, t: State, table: Table)
    requires Accounted(s) && Held(t) == table && Accounts(table, t.slots, t.nextConn)
    requires t.nextConn == s.nextConn && t.alive <= s.alive
    ensures Accounted(t)
  {
  }

  // ----- the shared pieces -----

  lemma RemoveEntryHeld(s: State, k: Key)
    ensures Held(RemoveEntry(s, k)) == Held(s) - {Cached(k)}
  {
    HeldWithout(s, RemoveEntry(s, k), Cached(k));
  }

  lemma RemoveEntryInv(s: State, k: Key)
    requires Accounted(s)
    ensures Accounted(RemoveEntry(s, k))
    ensures Held(RemoveEntry(s, k)) == Held(s) - {Cached(k)}
  {
    hide Accounts, Tabulates;
    RemoveEntryHeld(s, k);
    HeldAt(s, Cached(k));
    if k in s.entries {
      ReleaseSlot(Held(s), s.slots, s.nextConn, Cached(k));
      Close(s, RemoveEntry(s, k), Held(s) - {Cached(k)});
    }
  }

  lemma FinishHeld(s: State, g: nat)
    requires g in s.gets && !s.gets[g].stage.Picked?
    ensures Held(Finish(s, g)) == Held(s) - {Pending(g)}
  {
    HeldWithout(s, Finish(s, g), Pending(g));
  }

  lemma FinishInv(s: State, g: nat)
    requires Accounted(s) && g in s.gets && !s.gets[g].stage.Picked?
    ensures Accounted(Finish(s, g))
  {
    hide Accounts, Tabulates;
    FinishHeld(s, g);
    HeldAt(s, Pending(g));
    if OwnSlot(s.gets[g].stage).Some? {
      ReleaseSlot(Held(s), s.slots, s.nextConn, Pending(g));
    } else {
      assert Held(s) - {Pending(g)} == Held(s);
    }
    Close(s, Finish(s, g), Held(s) - {Pending(g)});
  }

  lemma HitHeld(s: State, k: Key, now: nat, b: nat)
    requires k in s.entries
    ensures Held(Hit(s, k, now, b)) == Held(s)[Borrower(b) := LeaseHold(s.entries[k].lease)]
  {
    HeldWith(s, Hit(s, k, now, b), Borrower(b), LeaseHold(s.entries[k].lease));
  }

  lemma HitInv(s: State, k: Key, now: nat, b: nat)
    requires Accounted(s) && k in s.entries && b !in s.leases
    ensures Accounted(Hit(s, k, now, b))
  {
    hide Accounts, Tabulates;
    HitHeld(s, k, now, b);
    HeldAt(s, Cached(k));
    HeldAt(s, Borrower(b));
    ShareSlot(Held(s), s.slots, s.nextConn, Borrower(b), Cached(k));
    Close(s, Hit(s, k, now, b), Held(s)[Borrower(b) := LeaseHold(s.entries[k].lease)]);
  }

  lemma RestageHeld(s: State, g: nat, stage: Stage)
    requires g in s.gets
    requires PendingHold(stage) == PendingHold(s.gets[g].stage)
    requires EvictingHold(stage) == EvictingHold(s.gets[g].stage)
    ensures Held(SetStage(s, g, stage)) == Held(s)
  {
    HeldSame(s, SetStage(s, g, stage));
  }

  /** Moving a call between stages that own the same thing changes nothing. */
  lemma RestageInv(s: State, g: nat, stage: Stage)
    requires Accounted(s) && g in s.gets
    requires PendingHold(stage) == PendingHold(s.gets[g].stage)
    requires EvictingHold(stage) == EvictingHold(s.gets[g].stage)
    ensures Accounted(SetStage(s, g, stage))
  {
    hide Accounts, Tabulates;
    RestageHeld(s, g, stage);
  }

  lemma ReserveHeld(s: State, g: nat)
    requires g in s.gets && s.slots.permits > 0
    requires EvictingHold(s.gets[g].stage).None?
    ensures Held(Reserve(s, g)) == Held(s)[Pending(g) := Hold(s.slots.next, None)]
  {
    HeldWith(s, Reserve(s, g), Pending(g), Hold(s.slots.next, None));
  }

  lemma ReserveInv(s: State, g: nat)
    requires Accounted(s) && g in s.gets && s.slots.permits > 0
    requires PendingHold(s.gets[g].stage).None? && EvictingHold(s.gets[g].stage).None?
    ensures Accounted(Reserve(s, g))
  {
    hide Accounts, Tabulates;
    ReserveHeld(s, g);
    HeldAt(s, Pending(g));
    AddSlot(Held(s), s.slots, s.nextConn, Pending(g));
  }

  // ----- the sections that do more than one of these -----

  lemma LookUpInv(s: State, g: nat, now: nat, b: nat)
    requires Accounted(s) && g in s.gets && s.gets[g].stage.Entering? && b !in s.leases
    ensures Accounted(LookUpNext(s, g, now, b))
  {
    hide Accounted;
    var key := s.gets[g].key;
    if IsAlive(s, key) {
      HitInv(s, key, now, b);
      FinishInv(Hit(s, key, now, b), g);
    } else {
      RemoveEntryInv(s, key);
      RestageInv(RemoveEntry(s, key), g, Missed);
    }
  }

  lemma RetainOneInv(s: State, g: nat, k: Key)
    requires Accounted(s) && g in s.gets && s.gets[g].stage.Retaining?
    ensures Accounted(RetainOneNext(s, g, k))
  {
    hide Accounted;
    var stage := Retaining(s.gets[g].stage.seen + {k});
    if IsDead(s, k) {
      RemoveEntryInv(s, k);
      RestageInv(RemoveEntry(s, k), g, stage);
    } else {
      RestageInv(s, g, stage);
    }
  }

  lemma PickHeld(s: State, g: nat, v: Key)
    requires g in s.gets && s.gets[g].stage.Scanning? && s.gets[g].stage.best == Some(v) && v in s.entries
    ensures Held(PickNext(s, g)) == (Held(s) - {Cached(v)})[Evicting(g) := LeaseHold(s.entries[v].lease)]
  {
    HeldMoved(s, PickNext(s, g), Cached(v), Evicting(g), LeaseHold(s.entries[v].lease));
  }

  lemma PickInv(s: State, g: nat)
    requires Accounted(s) && g in s.gets && s.gets[g].stage.Scanning?
    requires s.gets[g].stage.best.Some? ==> IsIdle(s, s.gets[g].stage.best.value)
    ensures Accounted(PickNext(s, g))
  {
    hide Accounts, Tabulates;
    match s.gets[g].stage.best {
      case None =>
        RestageInv(s, g, Picked(None));
      case Some(v) =>
        PickHeld(s, g, v);
        HeldAt(s, Cached(v));
        HeldAt(s, Evicting(g));
        MoveSlot(Held(s), s.slots, s.nextConn, Cached(v), Evicting(g));
    }
  }

  lemma DropEvictedHeld(s: State, g: nat)
    requires g in s.gets && s.gets[g].stage.Picked?
    ensures Held(DropEvictedNext(s, g)) == Held(s) - {Evicting(g)}
  {
    HeldWithout(s, DropEvictedNext(s, g), Evicting(g));
  }

  lemma DropEvictedInv(s: State, g: nat)
    requires Accounted(s) && g in s.gets && s.gets[g].stage.Picked?
    ensures Accounted(DropEvictedNext(s, g))
  {
    hide Accounts, Tabulates;
    DropEvictedHeld(s, g);
    HeldAt(s, Evicting(g));
    if s.gets[g].stage.evicted.Some? {
      ReleaseSlot(Held(s), s.slots, s.nextConn, Evicting(g));
    } else {
      assert Held(s) - {Evicting(g)} == Held(s);
    }
    Close(s, DropEvictedNext(s, g), Held(s) - {Evicting(g)});
  }

  lemma LookAgainInv(s: State, g: nat, now: nat, b: nat)
    requires Accounted(s) && g in s.gets && s.gets[g].stage.Reserved? && b !in s.leases
    ensures Accounted(LookAgainNext(s, g, now, b))
  {
    hide Accounted;
    var Get(key, stage) := s.gets[g];
    if IsAlive(s, key) {
      HitInv(s, key, now, b);
      RestageInv(Hit(s, key, now, b), g, Leaving(stage.slot, None));
    } else {
      RestageInv(s, g, Connecting(stage.slot));
    }
  }

  lemma ConnectHeld(s: State, g: nat)
    requires g in s.gets && s.gets[g].stage.Connecting?
    ensures Held(ConnectNext(s, g)) == Held(s)[Pending(g) := Hold(s.gets[g].stage.slot, Some(s.nextConn))]
  {
    HeldWith(s, ConnectNext(s, g), Pending(g), Hold(s.gets[g].stage.slot, Some(s.nextConn)));
  }

  lemma ConnectInv(s: State, g: nat)
    requires Accounted(s) && g in s.gets && s.gets[g].stage.Connecting?
    ensures Accounted(ConnectNext(s, g))
  {
    hide Accounts, Tabulates;
    ConnectHeld(s, g);
    HeldAt(s, Pending(g));
    AddConnection(Held(s), s.slots, s.nextConn, Pending(g));
  }

  lemma PublishInv(s: State, g: nat, now: nat, b: nat)
    requires Accounted(s) && g in s.gets && s.gets[g].stage.Connected? && b !in s.leases
    ensures Accounted(PublishNext(s, g, now, b))
  {
    hide Accounted;
    var Get(key, stage) := s.gets[g];
    if IsAlive(s, key) {
      HitInv(s, key, now, b);
      RestageInv(Hit(s, key, now, b), g, Leaving(stage.made.slot, Some(stage.made.conn)));
    } else {
      InstallInv(s, g, now, b);
    }
  }

  /** The pending lease becomes the cached one, which the borrower then shares. */
  ghost function Moved(table: Table, g: nat, key: Key, hold: Hold): Table {
    (table - {Pending(g)})[Cached(key) := hold]
  }

  lemma InstallHeld(s: State, g: nat, now: nat, b: nat)
    requires g in s.gets && s.gets[g].stage.Connected?
    requires !IsAlive(s, s.gets[g].key)
    ensures var key := s.gets[g].key;
            var hold := LeaseHold(s.gets[g].stage.made);
            Held(PublishNext(s, g, now, b))
            == Moved(Held(RemoveEntry(s, key)), g, key, hold)[Borrower(b) := hold]
  {
    hide Tabulates;
    var key, made := s.gets[g].key, s.gets[g].stage.made;
    var s1 := RemoveEntry(s, key);
    var s2 := s1.(gets := s1.gets - {g}, entries := s1.entries[key := CachedLease(made, now)]);
    HeldMoved(s1, s2, Pending(g), Cached(key), LeaseHold(made));
    HeldWith(s2, PublishNext(s, g, now, b), Borrower(b), LeaseHold(made));
  }

  lemma InstallInv(s: State, g: nat, now: nat, b: nat)
    requires Accounted(s) && g in s.gets && s.gets[g].stage.Connected? && b !in s.leases
    requires !IsAlive(s, s.gets[g].key)
    ensures Accounted(PublishNext(s, g, now, b))
  {
    hide Accounts, Tabulates;
    var Get(key, stage) := s.gets[g];
    var hold := LeaseHold(stage.made);
    var s1 := RemoveEntry(s, key);
    RemoveEntryInv(s, key);
    HeldAt(s1, Pending(g));
    HeldAt(s1, Cached(key));
    HeldAt(s1, Borrower(b));
    ExclusiveIsSole(s1, Pending(g));
    MoveSlot(Held(s1), s1.slots, s1.nextConn, Pending(g), Cached(key));
    ShareSlot(Moved(Held(s1), g, key, hold), s1.slots, s1.nextConn, Borrower(b), Cached(key));
    InstallHeld(s, g, now, b);
  }

  lemma ExclusiveIsSole(s: State, h: Holder)
    requires Accounted(s) && h in Held(s) && Exclusive(h)
    ensures Held(s)[h].slot in s.slots.strong && s.slots.strong[Held(s)[h].slot] == 1
  {
    hide Tabulates;
    OneHolder(Held(s), s.slots, h);
  }

  lemma CloneInv(s: State, b: nat, copy: nat)
    requires Accounted(s) && b in s.leases && copy !in s.leases
    ensures Accounted(Apply(s, CloneLease(b, copy)))
  {
    hide Accounts, Tabulates;
    var t := Apply(s, CloneLease(b, copy));
    HeldWith(s, t, Borrower(copy), LeaseHold(s.leases[b]));
    HeldAt(s, Borrower(b));
    HeldAt(s, Borrower(copy));
    ShareSlot(Held(s), s.slots, s.nextConn, Borrower(copy), Borrower(b));
  }

  lemma DropLeaseInv(s: State, b: nat)
    requires Accounted(s) && b in s.leases
    ensures Accounted(Apply(s, DropLease(b)))
  {
    hide Accounts, Tabulates;
    HeldWithout(s, Apply(s, DropLease(b)), Borrower(b));
    HeldAt(s, Borrower(b));
    ReleaseSlot(Held(s), s.slots, s.nextConn, Borrower(b));
  }

  lemma UntouchedInv(s: State, a: Action)
    requires Accounted(s) && Enabled(s, a) && (a.Call? || a.Die?)
    ensures Accounted(Apply(s, a))
  {
    hide Accounts, Tabulates;
    HeldSame(s, Apply(s, a));
  }

  // ----- the lock -----

  /** The steps that change neither the map nor who borrows what it holds, except to return leases. */
  predicate IsLockFree(a: Action) {
    match a
    case LookUp(_, _, _) => false
    case LookAgain(_, _, _) => false
    case Publish(_, _, _) => false
    case Invalidate(_) => false
    case Lock(_) => false
    case RetainOne(_, _) => false
    case Pick(_) => false
    case _ => true
  }

  /** Without the lock no entry changes, and whoever borrows one borrows it from an earlier borrower. */
  lemma LockFreeStep(s: State, a: Action)
    requires Enabled(s, a) && IsLockFree(a)
    ensures Apply(s, a).entries == s.entries
    ensures forall b :: b in Apply(s, a).leases ==> exists c :: c in s.leases && s.leases[c] == Apply(s, a).leases[b]
  {
    if a.CloneLease? {
      assert s.leases[a.b] == Apply(s, a).leases[a.copy];
    }
  }

  lemma UnborrowedStays(s: State, a: Action, k: Key)
    requires Enabled(s, a) && IsLockFree(a) && k in s.entries && !IsBorrowed(s, k)
    ensures k in Apply(s, a).entries && !IsBorrowed(Apply(s, a), k)
  {
    LockFreeStep(s, a);
    hide Enabled, Apply;
  }

  /** Idleness seen under the lock stays true as long as the lock is held. */
  lemma IdleStays(s: State, a: Action, k: Key)
    requires Enabled(s, a) && IsLockFree(a) && Accounted(s) && Accounted(Apply(s, a)) && IsIdle(s, k)
    ensures IsIdle(Apply(s, a), k)
  {
    hide Accounted, Enabled, Apply;
    IdleMeansUnborrowed(s, k);
    UnborrowedStays(s, a, k);
    IdleMeansUnborrowed(Apply(s, a), k);
  }

  /** Nobody else's step changes the stage of a call; a new call does not begin with the lock. */
  lemma OthersKeepStage(s: State, a: Action, h: nat)
    requires Enabled(s, a) && !IsStepOf(a, h)
    ensures h in s.gets ==> h in Apply(s, a).gets && Apply(s, a).gets[h] == s.gets[h]
    ensures h !in s.gets && h in Apply(s, a).gets ==> Apply(s, a).gets[h].stage == Entering
  {
  }

  /** The lock is held only by who has taken it, and the candidate of a scan changes only in its tests. */
  lemma HolderStep(s: State, a: Action, h: nat)
    requires Enabled(s, a) && h in Apply(s, a).gets && HoldsLock(Apply(s, a).gets[h].stage)
    ensures h in s.gets && (a == Lock(h) || HoldsLock(s.gets[h].stage))
    ensures var now, was := Apply(s, a).gets[h].stage, s.gets[h].stage;
            now.Scanning? ==>
              if a.ScanOne? && a.g == h then was.Scanning? && now.best == Better(s, was.best, a.key)
              else if a == StartScan(h) then now == Scanning({}, None)
              else was == now
  {
    if IsStepOf(a, h) {
      OwnStep(s, a, h);
    } else {
      OthersKeepStage(s, a, h);
      hide Enabled, Apply;
    }
  }

  lemma OwnStep(s: State, a: Action, h: nat)
    requires Enabled(s, a) && IsStepOf(a, h)
    ensures h in s.gets
    ensures h in Apply(s, a).gets && HoldsLock(Apply(s, a).gets[h].stage) ==>
              || a == Lock(h)
              || (a.RetainOne? && s.gets[h].stage.Retaining? && Apply(s, a).gets[h].stage.Retaining?)
              || (a == StartScan(h) && s.gets[h].stage.Retaining? && Apply(s, a).gets[h].stage == Scanning({}, None))
              || (a.ScanOne? && s.gets[h].stage.Scanning?
                  && Apply(s, a).gets[h].stage
                     == Scanning(s.gets[h].stage.seen + {a.key}, Better(s, s.gets[h].stage.best, a.key)))
    ensures a == Lock(h) ==> Apply(s, a).gets[h].stage == Retaining({})
  {
    hide Better, DropArc, CloneArc, IsIdle;
  }

  lemma LockIsTakenFree(s: State, a: Action)
    requires Enabled(s, a)
    ensures a.Lock? ==> IsUnlocked(s)
  {
  }

  lemma LockedIsFree(s: State, a: Action, h: nat)
    requires Enabled(s, a) && Locking(s) && h in s.gets && s.gets[h].stage.Scanning?
    ensures IsLockFree(a) || a == Pick(h)
  {
  }

  lemma ExclusionStep(s: State, a: Action, g: nat, h: nat)
    requires Enabled(s, a) && Locking(s) && g in Apply(s, a).gets && h in Apply(s, a).gets
    requires HoldsLock(Apply(s, a).gets[g].stage) && HoldsLock(Apply(s, a).gets[h].stage)
    ensures g == h
  {
    HolderStep(s, a, g);
    HolderStep(s, a, h);
    LockIsTakenFree(s, a);
    hide Enabled, Apply;
  }

  lemma CandidateStep(s: State, a: Action, h: nat)
    requires Inv(s) && Enabled(s, a) && Accounted(Apply(s, a)) && h in Apply(s, a).gets
    requires Apply(s, a).gets[h].stage.Scanning? && Apply(s, a).gets[h].stage.best.Some?
    ensures IsIdle(Apply(s, a), Apply(s, a).gets[h].stage.best.value)
  {
    var v := Apply(s, a).gets[h].stage.best.value;
    CandidateWasIdle(s, a, h, v);
    hide *;
    IdleStays(s, a, v);
  }

  lemma CandidateWasIdle(s: State, a: Action, h: nat, v: Key)
    requires Locking(s) && Enabled(s, a) && h in Apply(s, a).gets
    requires Apply(s, a).gets[h].stage.Scanning? && Apply(s, a).gets[h].stage.best == Some(v)
    ensures IsLockFree(a) && IsIdle(s, v)
  {
    HolderStep(s, a, h);
    if s.gets[h].stage.Scanning? {
      LockedIsFree(s, a, h);
    }
    PickEnds(s, a, h);
    hide Enabled, Apply, IsIdle;
  }

  lemma PickEnds(s: State, a: Action, h: nat)
    requires Enabled(s, a)
    ensures a == Pick(h) ==> h in Apply(s, a).gets && !HoldsLock(Apply(s, a).gets[h].stage)
  {
  }

  lemma LockingStep(s: State, a: Action)
    requires Inv(s) && Enabled(s, a) && Accounted(Apply(s, a))
    ensures Locking(Apply(s, a))
  {
    var t := Apply(s, a);
    hide Enabled, Apply, Accounted, Inv, Locking;
    forall g, h | g in t.gets && h in t.gets && HoldsLock(t.gets[g].stage) && HoldsLock(t.gets[h].stage)
      ensures g == h
    {
      ExclusionStep(s, a, g, h);
    }
    forall g | g in t.gets && t.gets[g].stage.Scanning? && t.gets[g].stage.best.Some?
      ensures IsIdle(t, t.gets[g].stage.best.value)
    {
      CandidateStep(s, a, g);
    }
  }

  // ----- every action, every run -----

  lemma AccountedStep(s: State, a: Action)
    requires Inv(s) && Enabled(s, a)
    ensures Accounted(Apply(s, a))
  {
    hide Accounted;
    match a {
      case Call(_, _) => UntouchedInv(s, a);
      case LookUp(g, now, b) => LookUpInv(s, g, now, b);
      case LookAgain(g, now, b) => LookAgainInv(s, g, now, b);
      case Connect(g) => ConnectInv(s, g);
      case ConnectFails(g) => FinishInv(s, g);
      case Publish(g, now, b) => PublishInv(s, g, now, b);
      case Leave(g) => FinishInv(s, g);
      case Cancel(g) => FinishInv(s, g);
      case Invalidate(key) => RemoveEntryInv(s, key);
      case CloneLease(b, copy) => CloneInv(s, b, copy);
      case DropLease(b) => DropLeaseInv(s, b);
      case Die(_) => UntouchedInv(s, a);
      case _ => AcquireStep(s, a);
    }
  }

  /** The steps of acquire_slot. */
  predicate OfAcquire(a: Action) {
    a.TryAcquire? || a.Lock? || a.RetainOne? || a.StartScan? || a.ScanOne? || a.Pick? || a.DropEvicted? || a.RetryAcquire?
  }

  lemma AcquireStep(s: State, a: Action)
    requires Inv(s) && Enabled(s, a) && OfAcquire(a)
    ensures Accounted(Apply(s, a))
  {
    hide Accounted;
    match a {
      case TryAcquire(g) =>
        if s.slots.permits > 0 { ReserveInv(s, g); } else { RestageInv(s, g, Full); }
      case Lock(g) => RestageInv(s, g, Retaining({}));
      case RetainOne(g, k) => RetainOneInv(s, g, k);
      case StartScan(g) => RestageInv(s, g, Scanning({}, None));
      case ScanOne(g, k) => RestageInv(s, g, Apply(s, a).gets[g].stage);
      case Pick(g) => PickInv(s, g);
      case DropEvicted(g) => DropEvictedInv(s, g);
      case RetryAcquire(g) =>
        if s.slots.permits > 0 { ReserveInv(s, g); } else { FinishInv(s, g); }
    }
  }

  lemma StepInv(s: State, a: Action)
    requires Inv(s) && Enabled(s, a)
    ensures Inv(Apply(s, a))
  {
    AccountedStep(s, a);
    hide Accounted, Locking, Enabled, Apply;
    LockingStep(s, a);
  }

  lemma StepKeepsMax(s: State, a: Action)
    requires Enabled(s, a)
    ensures Apply(s, a).slots.max == s.slots.max
  {
  }

  lemma {:induction false} ReachableInv(max: nat, states: seq<State>, actions: seq<Action>, i: nat)
    requires Run(max, states, actions) && i < |states|
    ensures Inv(states[i]) && states[i].slots.max == max
  {
    hide Inv, Enabled, Apply;
    if i == 0 {
      EmptyInv(max);
    } else {
      ReachableInv(max, states, actions, i - 1);
      assert Step(states[i - 1], actions[i - 1], states[i - 1 + 1]);
      StepInv(states[i - 1], actions[i - 1]);
      StepKeepsMax(states[i - 1], actions[i - 1]);
    }
  }
}
