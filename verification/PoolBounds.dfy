/** What the invariant means for capacity, in every reachable state of every run. */
module PoolBounds {
  import opened Wrappers
  import opened PoolProtocol
  import opened PoolOwnership
  import opened PoolInvariant

  // ----- counting by injection -----

  lemma {:induction false} InjectionBound<A, B>(f: map<A, B>, target: set<B>)
    requires forall x :: x in f ==> f[x] in target
    requires forall x, y :: x in f && y in f && f[x] == f[y] ==> x == y
    ensures |f| <= |target|
  {
    if f != map[] {
      var x :| x in f;
      var rest := f - {x};
      assert rest.Keys == f.Keys - {x};
      InjectionBound(rest, target - {f[x]});
    }
  }

  // ----- connections and handshakes -----

  /** What occupies capacity: an open connection, or a handshake in progress. */
  datatype Use = Connection(conn: nat) | Handshake(get: nat)

  ghost predicate Uses(s: State, u: Use, slot: nat) {
    match u
    case Connection(c) => exists h :: h in Held(s) && Held(s)[h] == Hold(slot, Some(c))
    case Handshake(g) => g in s.gets && s.gets[g].stage == Connecting(slot)
  }

  ghost function OpenConnections(s: State): set<nat> {
    set h | h in Held(s) && Held(s)[h].conn.Some? :: Held(s)[h].conn.value
  }

  ghost function Handshakes(s: State): set<nat> {
    set g | g in s.gets && s.gets[g].stage.Connecting?
  }

  /** The open connections are those of the map, of the leases outside, and of the calls that made or evict one. */
  lemma OpenConnectionIff(s: State, c: nat)
    ensures c in OpenConnections(s)
            <==> || (exists k :: k in s.entries && s.entries[k].lease.conn == c)
                 || (exists b :: b in s.leases && s.leases[b].conn == c)
                 || (exists g :: g in s.gets && ConnectionOf(s.gets[g].stage) == Some(c))
  {
    if c in OpenConnections(s) {
      var h :| h in Held(s) && Held(s)[h].conn == Some(c);
      HeldAt(s, h);
      match h {
        case Cached(k) => assert s.entries[k].lease.conn == c;
        case Borrower(b) => assert s.leases[b].conn == c;
        case Pending(g) => assert ConnectionOf(s.gets[g].stage) == Some(c);
        case Evicting(g) => assert ConnectionOf(s.gets[g].stage) == Some(c);
      }
    }
    if k :| k in s.entries && s.entries[k].lease.conn == c {
      HeldAt(s, Cached(k));
    }
    if b :| b in s.leases && s.leases[b].conn == c {
      HeldAt(s, Borrower(b));
    }
    if g :| g in s.gets && ConnectionOf(s.gets[g].stage) == Some(c) {
      HeldAt(s, Pending(g));
      HeldAt(s, Evicting(g));
    }
  }

  /** The connection a call holds in a local variable. */
  function ConnectionOf(stage: Stage): Option<nat> {
    match stage
    case Picked(Some(lease)) => Some(lease.conn)
    case Connected(made) => Some(made.conn)
    case Leaving(_, extra) => extra
    case _ => None
  }

  lemma UseHasSlot(s: State, u: Use) returns (slot: nat)
    requires if u.Connection? then u.conn in OpenConnections(s) else u.get in Handshakes(s)
    ensures Uses(s, u, slot)
  {
    match u {
      case Connection(c) =>
        var h :| h in Held(s) && Held(s)[h].conn == Some(c);
        slot := Held(s)[h].slot;
      case Handshake(g) =>
        slot := s.gets[g].stage.slot;
    }
  }

  /** The holder behind a use. */
  lemma UseHolder(s: State, u: Use, slot: nat) returns (h: Holder)
    requires Uses(s, u, slot)
    ensures h in Held(s)
    ensures Held(s)[h] == match u case Connection(c) => Hold(slot, Some(c)) case Handshake(_) => Hold(slot, None)
    ensures u.Handshake? ==> h == Pending(u.get)
  {
    match u {
      case Connection(c) => h :| h in Held(s) && Held(s)[h] == Hold(slot, Some(c));
      case Handshake(g) =>
        h := Pending(g);
        HeldAt(s, h);
    }
  }

  lemma UsesDiffer(s: State, u: Use, v: Use, slot: nat)
    requires Inv(s) && Uses(s, u, slot) && Uses(s, v, slot)
    ensures u == v
  {
    hide Tabulates, Counted, Numbered;
    var h := UseHolder(s, u, slot);
    var i := UseHolder(s, v, slot);
    assert h == i || Compatible(h, Held(s)[h], i, Held(s)[i]);
  }

  lemma UseIsAllocated(s: State, u: Use, slot: nat)
    requires Inv(s) && Uses(s, u, slot)
    ensures slot in s.slots.strong
  {
    hide Tabulates, Paired, Numbered;
    var h := UseHolder(s, u, slot);
  }

  /** Live connections and handshakes in progress together never exceed the limit. */
  lemma ConnectionsBounded(s: State)
    requires Inv(s)
    ensures |OpenConnections(s)| + |Handshakes(s)| <= |s.slots.strong| <= s.slots.max
  {
    var conns := set c | c in OpenConnections(s) :: Connection(c);
    var shakes := set g | g in Handshakes(s) :: Handshake(g);
    hide Inv, OpenConnections, Handshakes;
    SameSize(OpenConnections(s), conns, (c: nat) => Connection(c));
    SameSize(Handshakes(s), shakes, (g: nat) => Handshake(g));
    assert conns !! shakes;
    forall u | u in conns + shakes ensures exists slot :: Uses(s, u, slot) {
      var slot := UseHasSlot(s, u);
    }
    var f: map<Use, nat> := map u | u in conns + shakes :: (var slot :| Uses(s, u, slot); slot);
    forall u | u in f ensures f[u] in s.slots.strong.Keys {
      UseIsAllocated(s, u, f[u]);
    }
    forall u, v | u in f && v in f && f[u] == f[v] ensures u == v {
      UsesDiffer(s, u, v, f[u]);
    }
    InjectionBound(f, s.slots.strong.Keys);
    assert f.Keys == conns + shakes;
    AtMostMax(s);
  }

  lemma AtMostMax(s: State)
    requires Inv(s)
    ensures |s.slots.strong| <= s.slots.max
  {
  }

  lemma {:induction false} SameSize<T>(ids: set<nat>, tagged: set<T>, tag: nat -> T)
    requires forall i, j :: tag(i) == tag(j) ==> i == j
    requires tagged == set i | i in ids :: tag(i)
    ensures |tagged| == |ids|
  {
    if ids != {} {
      var i :| i in ids;
      var rest := set j | j in ids - {i} :: tag(j);
      assert rest == tagged - {tag(i)};
      SameSize(ids - {i}, rest, tag);
    }
  }

  // ----- the cache itself -----

  function SlotMap(s: State): map<Key, nat> {
    map k | k in s.entries :: s.entries[k].lease.slot
  }

  lemma CachedSlots(s: State)
    requires Inv(s)
    ensures forall k :: k in SlotMap(s) ==> SlotMap(s)[k] in s.slots.strong
    ensures forall k, l :: k in SlotMap(s) && l in SlotMap(s) && SlotMap(s)[k] == SlotMap(s)[l] ==> k == l
  {
    hide Tabulates, Numbered;
    forall k | k in s.entries ensures s.entries[k].lease.slot in s.slots.strong {
      HeldAt(s, Cached(k));
    }
    forall k, l | k in s.entries && l in s.entries && k != l
      ensures s.entries[k].lease.slot != s.entries[l].lease.slot
    {
      HeldAt(s, Cached(k));
      HeldAt(s, Cached(l));
      assert Compatible(Cached(k), Held(s)[Cached(k)], Cached(l), Held(s)[Cached(l)]);
    }
  }

  /** The cache never holds more entries than the pool has slots. */
  lemma EntriesBounded(s: State)
    requires Inv(s)
    ensures |s.entries| <= |s.slots.strong|
  {
    CachedSlots(s);
    hide Inv;
    InjectionBound(SlotMap(s), s.slots.strong.Keys);
    assert SlotMap(s).Keys == s.entries.Keys;
  }

  lemma CachedOnly(s: State, slot: nat) returns (k: Key)
    requires Inv(s) && s.gets == map[] && s.leases == map[] && slot in s.slots.strong
    ensures k in s.entries && s.entries[k].lease.slot == slot
  {
    var h := SlotHasHolder(Held(s), s.slots, slot);
    hide Inv;
    HeldAt(s, h);
    k := h.key;
  }

  /** With no `get` running and no lease out, every missing permit is a cached entry. */
  lemma QuiescentPermits(s: State)
    requires Inv(s) && s.gets == map[] && s.leases == map[]
    ensures s.slots.permits == s.slots.max - |s.entries|
  {
    EntriesBounded(s);
    assert s.slots.permits + |s.slots.strong| == s.slots.max;
    hide Inv;
    forall slot | slot in s.slots.strong ensures exists k :: k in s.entries && s.entries[k].lease.slot == slot {
      var k := CachedOnly(s, slot);
    }
    var f: map<nat, Key> := map slot | slot in s.slots.strong ::
      (var k :| k in s.entries && s.entries[k].lease.slot == slot; k);
    InjectionBound(f, s.entries.Keys);
    assert f.Keys == s.slots.strong.Keys;
  }

  /** The permit ledger of every reachable state. */
  lemma SlotConservation(max: nat, states: seq<State>, actions: seq<Action>, i: nat)
    requires Run(max, states, actions) && i < |states|
    ensures states[i].slots.permits + |states[i].slots.strong| == max
    ensures forall slot :: slot in states[i].slots.strong ==>
              states[i].slots.strong[slot] == |HoldersOf(Held(states[i]), slot)| > 0
    ensures forall h :: h in Held(states[i]) ==> Held(states[i])[h].slot in states[i].slots.strong
    ensures |OpenConnections(states[i])| + |Handshakes(states[i])| <= max
    ensures |states[i].entries| <= max
    ensures states[i].gets == map[] && states[i].leases == map[] ==>
              states[i].slots.permits == max - |states[i].entries|
  {
    ReachableInv(max, states, actions, i);
    var s := states[i];
    hide Run, Tabulates, Paired, Numbered;
    assert Counted(Held(s), s.slots.strong);
    ConnectionsBounded(s);
    EntriesBounded(s);
    if s.gets == map[] && s.leases == map[] {
      QuiescentPermits(s);
    }
  }
}
