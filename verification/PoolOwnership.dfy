/**
 Who holds a slot, and the invariant that ties the reference counts and the
 semaphore to the holders.  The lemmas here work on the ownership table alone;
 PoolInvariant applies them to the actions of the pool.
 */
module PoolOwnership {
  import opened Wrappers
  import opened PoolProtocol

  datatype Holder = Pending(get: nat) | Evicting(get: nat) | Cached(key: Key) | Borrower(id: nat)

  /** What a holder owns: a slot, and once the handshake is done a connection. */
  datatype Hold = Hold(slot: nat, conn: Option<nat>)

  type Table = map<Holder, Hold>

  function LeaseHold(lease: Lease): Hold {
    Hold(lease.slot, Some(lease.conn))
  }

  function PendingHold(stage: Stage): Option<Hold> {
    match stage
    case Reserved(slot) => Some(Hold(slot, None))
    case Connecting(slot) => Some(Hold(slot, None))
    case Connected(made) => Some(LeaseHold(made))
    case Leaving(mine, extra) => Some(Hold(mine, extra))
    case _ => None
  }

  function EvictingHold(stage: Stage): Option<Hold> {
    match stage
    case Picked(Some(lease)) => Some(LeaseHold(lease))
    case _ => None
  }

  function HoldOf(s: State, h: Holder): Option<Hold> {
    match h
    case Pending(g) => if g in s.gets then PendingHold(s.gets[g].stage) else None
    case Evicting(g) => if g in s.gets then EvictingHold(s.gets[g].stage) else None
    case Cached(k) => if k in s.entries then Some(LeaseHold(s.entries[k].lease)) else None
    case Borrower(b) => if b in s.leases then Some(LeaseHold(s.leases[b])) else None
  }

  /** `table` lists every local variable, map entry and borrowed lease that owns a slot. */
  ghost predicate Tabulates(table: Table, s: State) {
    forall h :: if h in table then HoldOf(s, h) == Some(table[h]) else HoldOf(s, h).None?
  }

  lemma TableExists(s: State)
    ensures exists table :: Tabulates(table, s)
  {
    var names: set<Holder> :=
      (set g | g in s.gets :: Pending(g)) + (set g | g in s.gets :: Evicting(g)) +
      (set k | k in s.entries :: Cached(k)) + (set b | b in s.leases :: Borrower(b));
    assert Tabulates(map h | h in names && HoldOf(s, h).Some? :: HoldOf(s, h).value, s);
  }

  ghost function Held(s: State): (table: Table)
    ensures Tabulates(table, s)
  {
    TableExists(s);
    var table :| Tabulates(table, s);
    table
  }

  /** How two states' tables differ when one holder's entry does. */
  lemma HeldWithout(s: State, t: State, gone: Holder)
    requires forall h :: HoldOf(t, h) == if h == gone then None else HoldOf(s, h)
    ensures Held(t) == Held(s) - {gone}
  {
    hide HoldOf;
  }

  lemma HeldWith(s: State, t: State, more: Holder, hold: Hold)
    requires forall h :: HoldOf(t, h) == if h == more then Some(hold) else HoldOf(s, h)
    ensures Held(t) == Held(s)[more := hold]
  {
    hide HoldOf;
  }

  lemma HeldMoved(s: State, t: State, gone: Holder, more: Holder, hold: Hold)
    requires gone != more
    requires forall h :: HoldOf(t, h) == if h == more then Some(hold) else if h == gone then None else HoldOf(s, h)
    ensures Held(t) == (Held(s) - {gone})[more := hold]
  {
    hide HoldOf;
  }

  lemma HeldSame(s: State, t: State)
    requires forall h :: HoldOf(t, h) == HoldOf(s, h)
    ensures Held(t) == Held(s)
  {
    hide HoldOf;
    assert Held(s).Keys == Held(t).Keys;
  }

  lemma HeldAt(s: State, h: Holder)
    ensures h in Held(s) <==> HoldOf(s, h).Some?
    ensures h in Held(s) ==> HoldOf(s, h) == Some(Held(s)[h])
  {
    hide HoldOf;
  }

  function HoldersOf(table: Table, slot: nat): set<Holder> {
    set h | h in table && table[h].slot == slot
  }

  /** A slot is allocated exactly while somebody holds it, and its strong count says how many do. */
  ghost predicate Counted(table: Table, strong: map<nat, nat>) {
    && (forall h :: h in table ==> table[h].slot in strong)
    && (forall slot :: slot in strong ==> strong[slot] == |HoldersOf(table, slot)| && strong[slot] > 0)
  }

  predicate Exclusive(h: Holder) {
    h.Pending? || h.Evicting?
  }

  /** Two holders share a slot only by sharing the whole lease; nobody shares a pending or an
      evicted slot, and no two entries share one. */
  predicate Compatible(h: Holder, a: Hold, i: Holder, b: Hold) {
    && (a.slot == b.slot ==> a == b && !Exclusive(h) && !Exclusive(i) && !(h.Cached? && i.Cached?))
    && (a.conn.Some? && a.conn == b.conn ==> a.slot == b.slot)
  }

  ghost predicate Paired(table: Table) {
    forall h, i :: h in table && i in table && h != i ==> Compatible(h, table[h], i, table[i])
  }

  /** Ids are handed out in order, so none is ever reused. */
  ghost predicate Numbered(table: Table, nextSlot: nat, nextConn: nat) {
    forall h :: h in table ==>
      table[h].slot < nextSlot && (table[h].conn.Some? ==> table[h].conn.value < nextConn)
  }

  /** The table accounts for the counts and permits of `slots`. */
  ghost predicate Accounts(table: Table, slots: Slots, nextConn: nat) {
    && Counted(table, slots.strong)
    && slots.permits + |slots.strong| == slots.max
    && Paired(table)
    && Numbered(table, slots.next, nextConn)
  }

  ghost predicate Accounted(s: State) {
    && Accounts(Held(s), s.slots, s.nextConn)
    && forall c :: c in s.alive ==> c < s.nextConn
  }

  /** At most one call holds the lock, and the candidate of its scan is idle. */
  ghost predicate Locking(s: State) {
    && (forall g, h :: g in s.gets && h in s.gets && HoldsLock(s.gets[g].stage) && HoldsLock(s.gets[h].stage) ==> g == h)
    && (forall g :: g in s.gets && s.gets[g].stage.Scanning? && s.gets[g].stage.best.Some?
          ==> IsIdle(s, s.gets[g].stage.best.value))
  }

  ghost predicate Inv(s: State) {
    Accounted(s) && Locking(s)
  }

  // ----- what one change of the table does -----

  lemma ShareCount(table: Table, slots: Slots, h: Holder, source: Holder)
    requires Counted(table, slots.strong) && h !in table && source in table
    ensures Counted(table[h := table[source]], CloneArc(slots, table[source].slot).strong)
    ensures CloneArc(slots, table[source].slot).strong.Keys == slots.strong.Keys
  {
    var t := table[h := table[source]];
    var x := table[source].slot;
    assert HoldersOf(t, x) == HoldersOf(table, x) + {h};
    forall y | y != x ensures HoldersOf(t, y) == HoldersOf(table, y) {}
  }

  lemma ShareSlot(table: Table, slots: Slots, nextConn: nat, h: Holder, source: Holder)
    requires Accounts(table, slots, nextConn)
    requires h.Borrower? && h !in table && source in table && !Exclusive(source)
    ensures Accounts(table[h := table[source]], CloneArc(slots, table[source].slot), nextConn)
  {
    ShareCount(table, slots, h, source);
    var t := table[h := table[source]];
    assert CloneArc(slots, table[source].slot).strong.Keys == slots.strong.Keys;
    forall i, j | i in t && j in t && i != j ensures Compatible(i, t[i], j, t[j]) {
      var i', j' := if i == h then source else i, if j == h then source else j;
      assert i' == j' || Compatible(i', table[i'], j', table[j']);
    }
  }

  lemma HoldersWithout(table: Table, h: Holder, y: nat)
    requires h in table
    ensures HoldersOf(table - {h}, y) == HoldersOf(table, y) - (if table[h].slot == y then {h} else {})
  {
  }

  lemma ReleaseCount(table: Table, slots: Slots, h: Holder)
    requires Counted(table, slots.strong) && h in table
    ensures Counted(table - {h}, DropArc(slots, table[h].slot).strong)
    ensures |DropArc(slots, table[h].slot).strong|
            == |slots.strong| - (if slots.strong[table[h].slot] == 1 then 1 else 0)
  {
    var t, x := table - {h}, table[h].slot;
    var strong := DropArc(slots, x).strong;
    OneHolder(table, slots, h);
    assert h in HoldersOf(table, x);
    assert strong.Keys == if slots.strong[x] == 1 then slots.strong.Keys - {x} else slots.strong.Keys;
    forall y | y in strong ensures strong[y] == |HoldersOf(t, y)| && strong[y] > 0 {
      HoldersWithout(table, h, y);
    }
    assert forall i :: i in t ==> t[i].slot in strong;
  }

  lemma ReleaseSlot(table: Table, slots: Slots, nextConn: nat, h: Holder)
    requires Accounts(table, slots, nextConn) && h in table
    ensures Accounts(table - {h}, DropArc(slots, table[h].slot), nextConn)
  {
    ReleaseCount(table, slots, h);
  }

  lemma MoveCount(table: Table, slots: Slots, h: Holder, target: Holder)
    requires Counted(table, slots.strong) && h in table && target !in table
    ensures Counted((table - {h})[target := table[h]], slots.strong)
  {
    var t := (table - {h})[target := table[h]];
    forall y | y in slots.strong ensures |HoldersOf(t, y)| == |HoldersOf(table, y)| {
      HoldersWithout(table, h, y);
      HoldersWith(table - {h}, target, table[h], y);
      assert table[h].slot == y ==> h in HoldersOf(table, y);
    }
  }

  lemma MoveSlot(table: Table, slots: Slots, nextConn: nat, h: Holder, target: Holder)
    requires Accounts(table, slots, nextConn)
    requires h in table && target !in table && slots.strong[table[h].slot] == 1
    ensures Accounts((table - {h})[target := table[h]], slots, nextConn)
  {
    var t := (table - {h})[target := table[h]];
    MoveCount(table, slots, h, target);
    OneHolder(table, slots, h);
    forall i, j | i in t && j in t && i != j ensures Compatible(i, t[i], j, t[j]) {
      var i', j' := if i == target then h else i, if j == target then h else j;
      assert Compatible(i', table[i'], j', table[j']);
    }
  }

  lemma SlotHasHolder(table: Table, slots: Slots, y: nat) returns (i: Holder)
    requires Counted(table, slots.strong) && y in slots.strong
    ensures i in table && table[i].slot == y
  {
    i :| i in HoldersOf(table, y);
  }

  lemma HoldersWith(table: Table, h: Holder, hold: Hold, y: nat)
    requires h !in table
    ensures HoldersOf(table[h := hold], y) == HoldersOf(table, y) + (if hold.slot == y then {h} else {})
  {
  }

  lemma AddCount(table: Table, slots: Slots, h: Holder)
    requires Counted(table, slots.strong) && h !in table && slots.permits > 0
    requires forall i :: i in table ==> table[i].slot < slots.next
    ensures Counted(table[h := Hold(slots.next, None)], NewArc(slots).strong)
    ensures |NewArc(slots).strong| == |slots.strong| + 1
  {
    hide Counted;
    var t, x, strong := table[h := Hold(slots.next, None)], slots.next, NewArc(slots).strong;
    if x in slots.strong {
      var i := SlotHasHolder(table, slots, x);
    }
    assert strong.Keys == slots.strong.Keys + {x};
    CountedAfterAdd(table, slots.strong, h, x);
  }

  lemma CountedAfterAdd(table: Table, strong: map<nat, nat>, h: Holder, x: nat)
    requires Counted(table, strong) && h !in table && x !in strong
    ensures Counted(table[h := Hold(x, None)], strong[x := 1])
  {
    var t := table[h := Hold(x, None)];
    forall y | y in strong[x := 1] ensures strong[x := 1][y] == |HoldersOf(t, y)| > 0 {
      HoldersWith(table, h, Hold(x, None), y);
      assert x !in strong ==> HoldersOf(table, x) == {};
    }
  }

  lemma AddSlot(table: Table, slots: Slots, nextConn: nat, h: Holder)
    requires Accounts(table, slots, nextConn) && h !in table && slots.permits > 0
    ensures Accounts(table[h := Hold(slots.next, None)], NewArc(slots), nextConn)
  {
    hide Counted;
    AddCount(table, slots, h);
  }

  /** A pending holder's handshake gives it the next connection. */
  lemma AddConnection(table: Table, slots: Slots, nextConn: nat, h: Holder)
    requires Accounts(table, slots, nextConn) && h in table && Exclusive(h)
    ensures Accounts(table[h := Hold(table[h].slot, Some(nextConn))], slots, nextConn + 1)
  {
    var t := table[h := Hold(table[h].slot, Some(nextConn))];
    forall y ensures HoldersOf(t, y) == HoldersOf(table, y) {}
    forall i, j | i in t && j in t && i != j ensures Compatible(i, t[i], j, t[j]) {
      assert Compatible(i, table[i], j, table[j]);
    }
  }

  ghost predicate IsSole(table: Table, h: Holder)
    requires h in table
  {
    forall i :: i in table && i != h ==> table[i].slot != table[h].slot
  }

  /** A strong count of one singles its holder out: this is what `is_idle` tests. */
  lemma OneHolder(table: Table, slots: Slots, h: Holder)
    requires Counted(table, slots.strong) && h in table
    ensures slots.strong[table[h].slot] == 1 <==> IsSole(table, h)
  {
    var all := HoldersOf(table, table[h].slot);
    assert h in all;
    if IsSole(table, h) {
      assert all == {h};
    } else {
      var i :| i in table && i != h && table[i].slot == table[h].slot;
      CardinalityOfSubset({h, i}, all);
    }
  }

  lemma CardinalityOfSubset<T>(a: set<T>, b: set<T>)
    requires a <= b
    ensures |a| <= |b|
  {
    assert b == a + (b - a);
  }

  // ----- borrowing -----

  /** Some caller outside the pool holds a lease on the entry's slot. */
  ghost predicate IsBorrowed(s: State, k: Key)
    requires k in s.entries
  {
    exists b :: b in s.leases && s.leases[b].slot == s.entries[k].lease.slot
  }

  /** `is_idle` reads a reference count; it says exactly that nobody borrows the entry. */
  lemma IdleMeansUnborrowed(s: State, k: Key)
    requires Accounted(s) && k in s.entries
    ensures IsIdle(s, k) <==> !IsBorrowed(s, k)
  {
    hide Tabulates, Numbered;
    HeldAt(s, Cached(k));
    OneHolder(Held(s), s.slots, Cached(k));
    hide Counted;
    if IsIdle(s, k) {
      forall b | b in s.leases ensures s.leases[b].slot != s.entries[k].lease.slot {
        HeldAt(s, Borrower(b));
      }
    } else {
      var i :| i in Held(s) && i != Cached(k) && Held(s)[i].slot == s.entries[k].lease.slot;
      assert Compatible(Cached(k), Held(s)[Cached(k)], i, Held(s)[i]);
      HeldAt(s, i);
      assert i.Borrower? && s.leases[i.id].slot == s.entries[k].lease.slot;
    }
  }
}
