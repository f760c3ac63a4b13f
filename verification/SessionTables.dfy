/**
 The structures that sessions live in (reference counts, registry, GC queue, the reactor's handler table),
 what is always true of them, and how each elementary change keeps it true.
 */
module SessionTables {
  import opened Options

  const IDLE := 0
  const ACTIVE := 1
  const PIPE_DIRTY := 2
  const DRAINING := 3
  const CLOSING := 4
  const DESTROY_PENDING := 5

  const MAX_FD := 1024

  type Id = nat

  /** `atpd_session_t`. */
  datatype Session = Session(
    fdIn: int, fdOut: int, state: int, refs: nat,
    registered: bool, gcEnqueued: bool, drained: bool, pipeOpen: bool, pending: nat)

  datatype Callback = InCallback | OutCallback | OtherCallback

  /**
   A slot of the reactor's handler table. `holds` says that the free callback is set and has not run: as
   long as it does, the slot holds one reference on its owner.
   */
  datatype Slot = Slot(serial: nat, callback: Callback, owner: Option<Id>, holds: bool)

  /** The shared structures. */
  datatype Tables = Tables(
    sessions: map<Id, Session>, nextId: Id,
    registry: seq<Id>, gc: seq<Id>,
    handlers: map<int, Slot>, nextSerial: nat, activeHandlers: nat)

  /** References that are not visible in the tables, and what has been done for good. */
  datatype Ledger = Ledger(
    creators: set<Id>,                     // creators that have not let go
    hand: multiset<Id>,                    // references held by running callbacks and loops
    freed: multiset<Id>,
    pipeCloses: multiset<Id>,              // each closes both ends
    places: map<nat, int>,                 // where each registration with a free callback was made
    freeRuns: multiset<nat>)               // runs of free callbacks, by registration

  function B(b: bool): (n: nat) { if b then 1 else 0 }

  ghost predicate SlotHolds(handlers: map<int, Slot>, fd: int, id: Id)
  {
    fd in handlers && handlers[fd].holds && handlers[fd].owner == Some(id)
  }

  /** Number of holders of a live session: creator, registry, its two slots, GC queue, running code. */
  ghost function Holders(t: Tables, g: Ledger, id: Id): (n: nat)
    requires id in t.sessions
  {
    var s := t.sessions[id];
    B(id in g.creators) + B(id in t.registry)
    + B(SlotHolds(t.handlers, s.fdIn, id)) + B(s.fdOut != s.fdIn && SlotHolds(t.handlers, s.fdOut, id))
    + B(id in t.gc) + g.hand[id]
  }

  ghost predicate NoDuplicates(s: seq<Id>)
  {
    forall i, j :: 0 <= i < j < |s| ==> s[i] != s[j]
  }

  /** `ex` names a session that is in the middle of `mark_closing`. */
  ghost predicate SessionSound(t: Tables, g: Ledger, ex: Option<Id>, id: Id)
    requires id in t.sessions
  {
    var s := t.sessions[id];
    && s.refs == Holders(t, g, id) && s.refs > 0
    && id < t.nextId && g.freed[id] == 0
    && s.registered == (id in t.registry)
    && (ex != Some(id) ==> s.registered == (s.state < CLOSING) && (s.drained ==> s.state >= CLOSING))
    && (id in t.gc ==> s.gcEnqueued) && (s.gcEnqueued ==> s.state >= CLOSING)
    && IDLE <= s.state <= DESTROY_PENDING
    && s.pipeOpen == !s.drained && g.pipeCloses[id] == B(!s.pipeOpen)
  }

  ghost predicate SlotSound(t: Tables, g: Ledger, ex: Option<Id>, fd: int)
    requires fd in t.handlers
  {
    var h := t.handlers[fd];
    && 0 <= fd < MAX_FD && h.serial < t.nextSerial
    && (h.holds ==> h.serial in g.places && g.places[h.serial] == fd)
    && (h.holds && h.owner.Some? ==>
          && h.owner.value in t.sessions
          && fd in {t.sessions[h.owner.value].fdIn, t.sessions[h.owner.value].fdOut}
          && (ex != h.owner ==> t.sessions[h.owner.value].state < CLOSING))
  }

  /** The free callback of a registration has run once, unless it is still waiting in its slot. */
  ghost predicate FreedOnce(t: Tables, g: Ledger, r: nat)
    requires r in g.places
  {
    var fd := g.places[r];
    && r < t.nextSerial
    && g.freeRuns[r] == B(!(fd in t.handlers && t.handlers[fd].serial == r && t.handlers[fd].holds))
  }

  ghost predicate OnlyLive(t: Tables, g: Ledger)
  {
    && (forall id :: id in t.registry ==> id in t.sessions)
    && (forall id :: id in t.gc ==> id in t.sessions)
    && (forall id :: id in g.creators ==> id in t.sessions)
    && (forall id :: id in g.hand ==> id in t.sessions)
    && (forall id :: id in g.freed ==> id < t.nextId && g.freed[id] == 1 && g.pipeCloses[id] == 1)
    && (forall id :: id in g.pipeCloses ==> id < t.nextId)
    && (forall id: Id :: id < t.nextId && id !in t.sessions ==> id in g.freed)
  }

  ghost predicate SessionsSound(t: Tables, g: Ledger, ex: Option<Id>)
  {
    forall id :: id in t.sessions ==> SessionSound(t, g, ex, id)
  }

  ghost predicate SlotsSound(t: Tables, g: Ledger, ex: Option<Id>)
  {
    forall fd :: fd in t.handlers ==> SlotSound(t, g, ex, fd)
  }

  ghost predicate RunsSound(t: Tables, g: Ledger)
  {
    (forall r :: r in g.places ==> FreedOnce(t, g, r)) && (forall r :: r in g.freeRuns ==> r in g.places)
  }

  ghost predicate Sound(t: Tables, g: Ledger, ex: Option<Id>)
  {
    && NoDuplicates(t.registry) && NoDuplicates(t.gc) && OnlyLive(t, g)
    && SessionsSound(t, g, ex) && SlotsSound(t, g, ex) && RunsSound(t, g)
    && t.activeHandlers == |t.handlers|
  }

  /** Equal but for the reference count. */
  ghost predicate SameBody(s: Session, s': Session)
  {
    s' == s.(refs := s'.refs)
  }

  /** A state at or past CLOSING never goes back; ids are never reused. */
  ghost predicate Advances(t: Tables, t': Tables)
  {
    && t.nextId <= t'.nextId
    && (forall id :: id in t'.sessions && id < t.nextId ==> id in t.sessions)
    && (forall id :: id in t.sessions && id in t'.sessions && t.sessions[id].state >= CLOSING ==>
          t'.sessions[id].state >= t.sessions[id].state)
  }

  // How `Sound` survives the elementary changes.

  /** Only the object `id` changes, and references on it that the tables do not show. */
  ghost predicate TouchesOnly(t: Tables, g: Ledger, t': Tables, g': Ledger, id: Id)
  {
    && id in t.sessions && id in t'.sessions
    && t' == t.(sessions := t.sessions[id := t'.sessions[id]])
    && t'.sessions[id].fdIn == t.sessions[id].fdIn && t'.sessions[id].fdOut == t.sessions[id].fdOut
    && g' == g.(creators := g'.creators, hand := g'.hand, pipeCloses := g'.pipeCloses)
    && SameElsewhere(g, g', id)
  }

  ghost predicate SameElsewhere(g: Ledger, g': Ledger, id: Id)
  {
    && (forall k :: k != id ==> (k in g'.creators <==> k in g.creators))
    && (forall k :: k != id ==> g'.hand[k] == g.hand[k])
    && (forall k :: k != id ==> g'.pipeCloses[k] == g.pipeCloses[k])
  }

  lemma SessionTouched(t: Tables, g: Ledger, t': Tables, g': Ledger, ex: Option<Id>, id: Id)
    requires Sound(t, g, ex) && TouchesOnly(t, g, t', g', id)
    requires SessionSound(t', g', ex, id)
    requires ex == Some(id) || (t'.sessions[id].state < CLOSING <==> t.sessions[id].state < CLOSING)
    ensures Sound(t', g', ex)
  {
    OthersKept(t, g, t', g', ex, id);
    SlotsKept(t, g, t', g', ex, id);
    assert RunsSound(t', g');
    assert OnlyLive(t', g') by { assert SessionSound(t', g', ex, id); }
  }

  lemma OthersKept(t: Tables, g: Ledger, t': Tables, g': Ledger, ex: Option<Id>, id: Id)
    requires SessionsSound(t, g, ex) && TouchesOnly(t, g, t', g', id) && SessionSound(t', g', ex, id)
    ensures SessionsSound(t', g', ex)
  {
    forall k | k in t'.sessions
      ensures SessionSound(t', g', ex, k)
    {
      if k != id { assert SessionSound(t, g, ex, k); }
    }
  }

  lemma SlotsKept(t: Tables, g: Ledger, t': Tables, g': Ledger, ex: Option<Id>, id: Id)
    requires SlotsSound(t, g, ex) && TouchesOnly(t, g, t', g', id)
    requires ex == Some(id) || (t'.sessions[id].state < CLOSING <==> t.sessions[id].state < CLOSING)
    ensures SlotsSound(t', g', ex)
  {
    forall fd | fd in t'.handlers
      ensures SlotSound(t', g', ex, fd)
    {
      assert SlotSound(t, g, ex, fd);
    }
  }

  /** The handler table is untouched and the owners of waiting free callbacks are where they were. */
  lemma HandlersUntouched(t: Tables, g: Ledger, t': Tables, g': Ledger, ex: Option<Id>)
    requires SlotsSound(t, g, ex) && RunsSound(t, g)
    requires t'.handlers == t.handlers && t'.nextSerial == t.nextSerial
    requires g'.places == g.places && g'.freeRuns == g.freeRuns
    requires forall id :: id in t.sessions && (id !in t'.sessions || t'.sessions[id] != t.sessions[id]) ==>
               OwnerKept(t, t', ex, id)
    ensures SlotsSound(t', g', ex) && RunsSound(t', g')
  {
    forall fd | fd in t'.handlers
      ensures SlotSound(t', g', ex, fd)
    {
      assert SlotSound(t, g, ex, fd);
    }
    forall r | r in g'.places
      ensures FreedOnce(t', g', r)
    {
      assert FreedOnce(t, g, r);
    }
  }

  ghost predicate OwnerKept(t: Tables, t': Tables, ex: Option<Id>, id: Id)
    requires id in t.sessions
  {
    var s := t.sessions[id];
    SlotHolds(t.handlers, s.fdIn, id) || SlotHolds(t.handlers, s.fdOut, id) ==>
      && id in t'.sessions && t'.sessions[id].fdIn == s.fdIn && t'.sessions[id].fdOut == s.fdOut
      && (ex == Some(id) || t'.sessions[id].state < CLOSING)
  }

  ghost function Freed(g: Ledger, id: Id, pipeOpen: bool): (r: Ledger)
  {
    g.(hand := g.hand - multiset{id}, freed := g.freed + multiset{id},
       pipeCloses := if pipeOpen then g.pipeCloses + multiset{id} else g.pipeCloses)
  }

  /** The last reference on `id` is dropped by the code that holds it: nothing else refers to the object. */
  lemma SessionFreed(t: Tables, g: Ledger, ex: Option<Id>, id: Id)
    requires Sound(t, g, ex) && id in t.sessions && t.sessions[id].refs == 1 && g.hand[id] > 0
    ensures id !in t.registry && id !in t.gc && id !in g.creators
    ensures !SlotHolds(t.handlers, t.sessions[id].fdIn, id) && !SlotHolds(t.handlers, t.sessions[id].fdOut, id)
    ensures Sound(t.(sessions := t.sessions - {id}), Freed(g, id, t.sessions[id].pipeOpen), ex)
    ensures Freed(g, id, t.sessions[id].pipeOpen).creators == g.creators
  {
    assert SessionSound(t, g, ex, id);
    hide SlotsSound, RunsSound, SessionsSound, OnlyLive, Freed;
    LastHolder(t, g, ex, id);
    hide SessionSound;
    var t', g' := t.(sessions := t.sessions - {id}), Freed(g, id, t.sessions[id].pipeOpen);
    LiveAfterFree(t, g, id);
    HandlersUntouched(t, g, t', g', ex);
    OthersAfterFree(t, g, ex, id);
  }

  lemma LastHolder(t: Tables, g: Ledger, ex: Option<Id>, id: Id)
    requires id in t.sessions && SessionSound(t, g, ex, id) && t.sessions[id].refs == 1 && g.hand[id] > 0
    ensures id !in t.registry && id !in t.gc && id !in g.creators && g.hand[id] == 1
    ensures !SlotHolds(t.handlers, t.sessions[id].fdIn, id) && !SlotHolds(t.handlers, t.sessions[id].fdOut, id)
    ensures id < t.nextId && g.freed[id] == 0 && g.pipeCloses[id] == B(!t.sessions[id].pipeOpen)
  {
  }

  lemma LiveAfterFree(t: Tables, g: Ledger, id: Id)
    requires OnlyLive(t, g) && id in t.sessions && id < t.nextId
    requires id !in t.registry && id !in t.gc && id !in g.creators && g.hand[id] == 1
    requires g.freed[id] == 0 && g.pipeCloses[id] == B(!t.sessions[id].pipeOpen)
    ensures OnlyLive(t.(sessions := t.sessions - {id}), Freed(g, id, t.sessions[id].pipeOpen))
    ensures Freed(g, id, t.sessions[id].pipeOpen).places == g.places
    ensures Freed(g, id, t.sessions[id].pipeOpen).creators == g.creators
    ensures Freed(g, id, t.sessions[id].pipeOpen).freeRuns == g.freeRuns
  {
  }

  lemma OthersAfterFree(t: Tables, g: Ledger, ex: Option<Id>, id: Id)
    requires SessionsSound(t, g, ex) && id in t.sessions
    ensures SessionsSound(t.(sessions := t.sessions - {id}), Freed(g, id, t.sessions[id].pipeOpen), ex)
  {
    var t', g' := t.(sessions := t.sessions - {id}), Freed(g, id, t.sessions[id].pipeOpen);
    forall k | k in t'.sessions
      ensures SessionSound(t', g', ex, k)
    {
      assert SessionSound(t, g, ex, k);
    }
  }

  function Without(s: seq<Id>, id: Id): (r: seq<Id>)
  {
    if s == [] then [] else if s[0] == id then s[1..] else [s[0]] + Without(s[1..], id)
  }

  lemma {:induction false} WithoutFacts(s: seq<Id>, id: Id)
    requires NoDuplicates(s)
    ensures NoDuplicates(Without(s, id))
    ensures forall k :: k in Without(s, id) <==> k in s && k != id
    decreases |s|
  {
    if s != [] {
      WithoutFacts(s[1..], id);
      assert s == [s[0]] + s[1..];
      assert forall i :: 0 <= i < |s[1..]| ==> s[1..][i] == s[i + 1];
      assert s[0] !in s[1..];
    }
  }

  function Unregistered(t: Tables, id: Id): (r: Tables)
    requires id in t.sessions
  {
    t.(sessions := t.sessions[id := t.sessions[id].(registered := false)], registry := Without(t.registry, id))
  }

  /** The registry's reference passes to the running code. */
  lemma RegistryLeft(t: Tables, g: Ledger, id: Id)
    requires Sound(t, g, Some(id)) && id in t.registry
    ensures id in t.sessions && Sound(Unregistered(t, id), g.(hand := g.hand + multiset{id}), Some(id))
  {
    LiveAfterUnregister(t, g, id);
    WithoutFacts(t.registry, id);
    hide SlotsSound, RunsSound, SessionsSound, NoDuplicates, OnlyLive, Without;
    SessionsAfterUnregister(t, g, id);
    HandlersUntouched(t, g, Unregistered(t, id), g.(hand := g.hand + multiset{id}), Some(id));
  }

  lemma LiveAfterUnregister(t: Tables, g: Ledger, id: Id)
    requires OnlyLive(t, g) && id in t.registry && NoDuplicates(t.registry)
    ensures id in t.sessions && OnlyLive(Unregistered(t, id), g.(hand := g.hand + multiset{id}))
  {
    WithoutFacts(t.registry, id);
    hide Without, NoDuplicates;
  }

  lemma SessionsAfterUnregister(t: Tables, g: Ledger, id: Id)
    requires SessionsSound(t, g, Some(id)) && id in t.registry && id in t.sessions && NoDuplicates(t.registry)
    ensures SessionsSound(Unregistered(t, id), g.(hand := g.hand + multiset{id}), Some(id))
  {
    WithoutFacts(t.registry, id);
    hide Without, SessionSound;
    var t', g' := Unregistered(t, id), g.(hand := g.hand + multiset{id});
    forall k | k in t'.sessions
      ensures SessionSound(t', g', Some(id), k)
    {
      assert SessionSound(t, g, Some(id), k);
      SessionAfterUnregister(t, g, id, k);
    }
  }

  lemma SessionAfterUnregister(t: Tables, g: Ledger, id: Id, k: Id)
    requires k in t.sessions && SessionSound(t, g, Some(id), k) && id in t.sessions && id in t.registry
    requires k in Without(t.registry, id) <==> k in t.registry && k != id
    ensures SessionSound(Unregistered(t, id), g.(hand := g.hand + multiset{id}), Some(id), k)
  {
    hide Without;
  }

  function Enqueued(t: Tables, id: Id): (r: Tables)
    requires id in t.sessions
  {
    t.(sessions := t.sessions[id := t.sessions[id].(gcEnqueued := true, state := DESTROY_PENDING)], gc := t.gc + [id])
  }

  /** A reference of the running code passes to the GC queue. */
  lemma GcJoined(t: Tables, g: Ledger, ex: Option<Id>, id: Id)
    requires Sound(t, g, ex) && id in t.sessions && g.hand[id] > 0
    requires !t.sessions[id].gcEnqueued && t.sessions[id].state >= CLOSING
    requires !SlotHolds(t.handlers, t.sessions[id].fdIn, id) && !SlotHolds(t.handlers, t.sessions[id].fdOut, id)
    ensures Sound(Enqueued(t, id), g.(hand := g.hand - multiset{id}), ex)
  {
    assert SessionSound(t, g, ex, id);
    assert id !in t.gc;
    hide SlotsSound, RunsSound, SessionsSound, SessionSound, Holders, OnlyLive;
    var t', g' := Enqueued(t, id), g.(hand := g.hand - multiset{id});
    AppendedOnce(t.gc, id);
    hide NoDuplicates;
    HandlersUntouched(t, g, t', g', ex);
    SessionsAfterEnqueue(t, g, ex, id);
    LiveAfterEnqueue(t, g, id);
  }

  lemma AppendedOnce(s: seq<Id>, id: Id)
    requires NoDuplicates(s) && id !in s
    ensures NoDuplicates(s + [id])
  {
  }

  lemma LiveAfterEnqueue(t: Tables, g: Ledger, id: Id)
    requires OnlyLive(t, g) && id in t.sessions
    ensures OnlyLive(Enqueued(t, id), g.(hand := g.hand - multiset{id}))
  {
  }

  lemma SessionsAfterEnqueue(t: Tables, g: Ledger, ex: Option<Id>, id: Id)
    requires SessionsSound(t, g, ex) && id in t.sessions && g.hand[id] > 0 && id !in t.gc
    requires t.sessions[id].state >= CLOSING
    ensures SessionsSound(Enqueued(t, id), g.(hand := g.hand - multiset{id}), ex)
  {
    var t', g' := Enqueued(t, id), g.(hand := g.hand - multiset{id});
    forall k | k in t'.sessions
      ensures SessionSound(t', g', ex, k)
    {
      assert SessionSound(t, g, ex, k);
    }
  }

  /** `gc_process` takes the whole queue: its references pass to the loop. */
  lemma GcTaken(t: Tables, g: Ledger, ex: Option<Id>)
    requires Sound(t, g, ex)
    ensures Sound(t.(gc := []), g.(hand := g.hand + multiset(t.gc)), ex)
  {
    hide SlotsSound, RunsSound, SessionsSound;
    var t', g' := t.(gc := []), g.(hand := g.hand + multiset(t.gc));
    HandlersUntouched(t, g, t', g', ex);
    SessionsAfterTake(t, g, ex);
    assert OnlyLive(t', g');
  }

  lemma SessionsAfterTake(t: Tables, g: Ledger, ex: Option<Id>)
    requires SessionsSound(t, g, ex) && NoDuplicates(t.gc)
    ensures SessionsSound(t.(gc := []), g.(hand := g.hand + multiset(t.gc)), ex)
  {
    var t', g' := t.(gc := []), g.(hand := g.hand + multiset(t.gc));
    hide NoDuplicates;
    forall k | k in t'.sessions
      ensures SessionSound(t', g', ex, k)
    {
      assert SessionSound(t, g, ex, k);
      CountOnce(t.gc, k);
    }
  }

  lemma {:induction false} CountOnce(s: seq<Id>, id: Id)
    requires NoDuplicates(s)
    ensures multiset(s)[id] == B(id in s)
    decreases |s|
  {
    if s != [] {
      CountOnce(s[1..], id);
      assert s == [s[0]] + s[1..];
    }
  }

  // The handler table.

  ghost function Given(hand: multiset<Id>, owner: Option<Id>): (r: multiset<Id>)
  {
    if owner.Some? then hand + multiset{owner.value} else hand
  }

  function Released(t: Tables, fd: int): (r: Tables)
    requires fd in t.handlers
  {
    t.(handlers := t.handlers[fd := t.handlers[fd].(holds := false)])
  }

  ghost function RanFree(g: Ledger, h: Slot): (r: Ledger)
  {
    g.(freeRuns := g.freeRuns + multiset{h.serial}, hand := Given(g.hand, h.owner))
  }

  /** The tables differ at most in the slot `fd`. */
  ghost predicate SlotOnly(t: Tables, t': Tables, fd: int)
  {
    && t'.sessions == t.sessions && t'.nextSerial >= t.nextSerial
    && (forall f :: f != fd ==> (f in t'.handlers <==> f in t.handlers))
    && (forall f :: f != fd && f in t.handlers && f in t'.handlers ==> t'.handlers[f] == t.handlers[f])
  }

  lemma SlotsAt(t: Tables, g: Ledger, t': Tables, g': Ledger, ex: Option<Id>, fd: int)
    requires SlotsSound(t, g, ex) && SlotOnly(t, t', fd)
    requires forall r :: r in g.places ==> r in g'.places && g'.places[r] == g.places[r]
    requires fd in t'.handlers ==> SlotSound(t', g', ex, fd)
    ensures SlotsSound(t', g', ex)
  {
    forall f | f in t'.handlers
      ensures SlotSound(t', g', ex, f)
    {
      if f != fd { assert SlotSound(t, g, ex, f); }
    }
  }

  lemma RunsAt(t: Tables, g: Ledger, t': Tables, g': Ledger, fd: int)
    requires RunsSound(t, g) && SlotOnly(t, t', fd)
    requires forall r :: r in g'.places && g'.places[r] != fd ==>
               r in g.places && g.places[r] == g'.places[r] && g'.freeRuns[r] == g.freeRuns[r]
    requires forall r :: r in g'.places && g'.places[r] == fd ==> FreedOnce(t', g', r)
    requires forall r :: r in g'.freeRuns ==> r in g'.places
    ensures RunsSound(t', g')
  {
    forall r | r in g'.places
      ensures FreedOnce(t', g', r)
    {
      if g'.places[r] != fd { assert FreedOnce(t, g, r); }
    }
  }

  /** The free callback starts: the slot's reference is now the callback's. */
  lemma SlotReleased(t: Tables, g: Ledger, ex: Option<Id>, fd: int)
    requires Sound(t, g, ex) && fd in t.handlers && t.handlers[fd].holds
    ensures Sound(Released(t, fd), RanFree(g, t.handlers[fd]), ex)
  {
    assert SlotSound(t, g, ex, fd);
    var t', g' := Released(t, fd), RanFree(g, t.handlers[fd]);
    SessionsAfterRelease(t, g, ex, fd);
    hide SessionsSound, SlotsSound;
    SlotsAt(t, g, t', g', ex, fd);
    RunsAfterRelease(t, g, ex, fd);
    hide RunsSound;
    assert OnlyLive(t', g');
  }

  lemma RunsAfterRelease(t: Tables, g: Ledger, ex: Option<Id>, fd: int)
    requires RunsSound(t, g) && fd in t.handlers && t.handlers[fd].holds && SlotSound(t, g, ex, fd)
    ensures RunsSound(Released(t, fd), RanFree(g, t.handlers[fd]))
  {
    var t', g' := Released(t, fd), RanFree(g, t.handlers[fd]);
    forall r | r in g'.places
      ensures FreedOnce(t', g', r)
    {
      assert FreedOnce(t, g, r);
    }
  }

  lemma SessionsAfterRelease(t: Tables, g: Ledger, ex: Option<Id>, fd: int)
    requires SessionsSound(t, g, ex) && fd in t.handlers && t.handlers[fd].holds && SlotSound(t, g, ex, fd)
    ensures SessionsSound(Released(t, fd), RanFree(g, t.handlers[fd]), ex)
  {
    hide SessionSound, SlotSound, RanFree;
    var t', g' := Released(t, fd), RanFree(g, t.handlers[fd]);
    forall k | k in t'.sessions
      ensures SessionSound(t', g', ex, k)
    {
      SessionAfterRelease(t, g, ex, fd, k);
    }
  }

  lemma SessionAfterRelease(t: Tables, g: Ledger, ex: Option<Id>, fd: int, k: Id)
    requires k in t.sessions && SessionSound(t, g, ex, k)
    requires fd in t.handlers && t.handlers[fd].holds && SlotSound(t, g, ex, fd)
    ensures SessionSound(Released(t, fd), RanFree(g, t.handlers[fd]), ex, k)
  {
  }

  function Cleared(t: Tables, fd: int): (r: Tables)
    requires fd in t.handlers && t.activeHandlers > 0
  {
    t.(handlers := t.handlers - {fd}, activeHandlers := t.activeHandlers - 1)
  }

  lemma SlotCleared(t: Tables, g: Ledger, ex: Option<Id>, fd: int)
    requires Sound(t, g, ex) && fd in t.handlers && !t.handlers[fd].holds
    ensures t.activeHandlers > 0 && Sound(Cleared(t, fd), g, ex)
  {
    assert t.handlers.Keys - {fd} == (t.handlers - {fd}).Keys;
    assert |t.handlers.Keys| == |t.handlers| > 0;
    var t' := Cleared(t, fd);
    SlotsAt(t, g, t', g, ex, fd);
    assert forall r :: r in g.places && g.places[r] == fd ==> FreedOnce(t, g, r);
    RunsAt(t, g, t', g, fd);
    hide SlotsSound, RunsSound;
    SessionsAtIdle(t, g, t', ex, fd);
  }

  /** A slot that holds nothing counts for nobody. */
  lemma SessionsAtIdle(t: Tables, g: Ledger, t': Tables, ex: Option<Id>, fd: int)
    requires SessionsSound(t, g, ex) && SlotOnly(t, t', fd)
    requires t'.registry == t.registry && t'.gc == t.gc && t'.nextId == t.nextId
    requires (fd in t.handlers ==> !t.handlers[fd].holds) && (fd in t'.handlers ==> !t'.handlers[fd].holds)
    ensures SessionsSound(t', g, ex)
  {
    forall k | k in t'.sessions
      ensures SessionSound(t', g, ex, k)
    {
      assert SessionSound(t, g, ex, k);
    }
  }

  /** A new slot, its free callback not yet set, in an empty or released place. */
  function Installed(t: Tables, fd: int, cb: Callback, owner: Option<Id>): (r: Tables)
  {
    t.(handlers := t.handlers[fd := Slot(t.nextSerial, cb, owner, false)], nextSerial := t.nextSerial + 1,
       activeHandlers := if fd in t.handlers then t.activeHandlers else t.activeHandlers + 1)
  }

  lemma SlotInstalled(t: Tables, g: Ledger, ex: Option<Id>, fd: int, cb: Callback, owner: Option<Id>)
    requires Sound(t, g, ex) && 0 <= fd < MAX_FD && (fd in t.handlers ==> !t.handlers[fd].holds)
    ensures Sound(Installed(t, fd, cb, owner), g, ex)
  {
    var t' := Installed(t, fd, cb, owner);
    SlotCount(t, fd, cb, owner);
    SlotsAt(t, g, t', g, ex, fd);
    assert forall r :: r in g.places && g.places[r] == fd ==> FreedOnce(t, g, r);
    RunsAt(t, g, t', g, fd);
    hide SlotsSound, RunsSound;
    SessionsAtIdle(t, g, t', ex, fd);
  }

  lemma SlotCount(t: Tables, fd: int, cb: Callback, owner: Option<Id>)
    ensures |Installed(t, fd, cb, owner).handlers| == |t.handlers| + B(fd !in t.handlers)
  {
    var t' := Installed(t, fd, cb, owner);
    assert t'.handlers.Keys == t.handlers.Keys + {fd};
    assert |t'.handlers.Keys| == |t'.handlers| && |t.handlers.Keys| == |t.handlers|;
  }

  function Armed(t: Tables, fd: int): (r: Tables)
    requires fd in t.handlers
  {
    t.(handlers := t.handlers[fd := t.handlers[fd].(holds := true)])
  }

  ghost function Taken(g: Ledger, h: Slot, fd: int): (r: Ledger)
  {
    g.(places := g.places[h.serial := fd], hand := if h.owner.Some? then g.hand - multiset{h.owner.value} else g.hand)
  }

  /** The free callback is set: a reference of the caller becomes the slot's. */
  lemma SlotArmed(t: Tables, g: Ledger, ex: Option<Id>, fd: int)
    requires Sound(t, g, ex) && fd in t.handlers && !t.handlers[fd].holds && t.handlers[fd].serial !in g.places
    requires var o := t.handlers[fd].owner;
             o.Some? ==> o.value in t.sessions && g.hand[o.value] > 0 && t.sessions[o.value].state < CLOSING
                         && fd in {t.sessions[o.value].fdIn, t.sessions[o.value].fdOut}
    ensures Sound(Armed(t, fd), Taken(g, t.handlers[fd], fd), ex)
  {
    assert SlotSound(t, g, ex, fd);
    var t', g' := Armed(t, fd), Taken(g, t.handlers[fd], fd);
    SessionsAfterArm(t, g, ex, fd);
    hide SessionsSound;
    SlotsAt(t, g, t', g', ex, fd);
    hide SlotsSound;
    RunsAfterArm(t, g, fd);
    hide RunsSound;
    assert OnlyLive(t', g');
  }

  lemma RunsAfterArm(t: Tables, g: Ledger, fd: int)
    requires RunsSound(t, g) && fd in t.handlers && !t.handlers[fd].holds
    requires t.handlers[fd].serial !in g.places && t.handlers[fd].serial < t.nextSerial
    ensures RunsSound(Armed(t, fd), Taken(g, t.handlers[fd], fd))
  {
    var t', g' := Armed(t, fd), Taken(g, t.handlers[fd], fd);
    forall r | r in g'.places
      ensures FreedOnce(t', g', r)
    {
      if r in g.places { assert FreedOnce(t, g, r); }
    }
  }

  lemma SessionsAfterArm(t: Tables, g: Ledger, ex: Option<Id>, fd: int)
    requires SessionsSound(t, g, ex) && fd in t.handlers && !t.handlers[fd].holds
    requires var o := t.handlers[fd].owner;
             o.Some? ==> o.value in t.sessions && g.hand[o.value] > 0
                         && fd in {t.sessions[o.value].fdIn, t.sessions[o.value].fdOut}
    ensures SessionsSound(Armed(t, fd), Taken(g, t.handlers[fd], fd), ex)
  {
    hide SessionSound, Taken;
    var t', g' := Armed(t, fd), Taken(g, t.handlers[fd], fd);
    forall k | k in t'.sessions
      ensures SessionSound(t', g', ex, k)
    {
      SessionAfterArm(t, g, ex, fd, k);
    }
  }

  lemma SessionAfterArm(t: Tables, g: Ledger, ex: Option<Id>, fd: int, k: Id)
    requires k in t.sessions && SessionSound(t, g, ex, k) && fd in t.handlers && !t.handlers[fd].holds
    requires t.handlers[fd].owner == Some(k) ==> g.hand[k] > 0 && fd in {t.sessions[k].fdIn, t.sessions[k].fdOut}
    ensures SessionSound(Armed(t, fd), Taken(g, t.handlers[fd], fd), ex, k)
  {
    var t', g' := Armed(t, fd), Taken(g, t.handlers[fd], fd);
    var s := t.sessions[k];
    if t.handlers[fd].owner == Some(k) {
      assert g'.hand[k] == g.hand[k] - 1;
    } else {
      assert g'.hand[k] == g.hand[k];
      assert SlotHolds(t'.handlers, s.fdIn, k) == SlotHolds(t.handlers, s.fdIn, k);
      assert SlotHolds(t'.handlers, s.fdOut, k) == SlotHolds(t.handlers, s.fdOut, k);
    }
    assert Holders(t', g', k) == Holders(t, g, k);
  }

  // Taking and dropping references.

  function WithRefs(t: Tables, id: Id, n: nat): (r: Tables)
    requires id in t.sessions
  {
    t.(sessions := t.sessions[id := t.sessions[id].(refs := n)])
  }

  /** The running code takes or drops references: the count moves with them. */
  lemma RefsMoved(t: Tables, g: Ledger, ex: Option<Id>, id: Id, n: nat, hand: multiset<Id>)
    requires Sound(t, g, ex) && id in t.sessions && n > 0
    requires n + g.hand[id] == t.sessions[id].refs + hand[id]
    requires forall k :: k != id ==> hand[k] == g.hand[k]
    ensures Sound(WithRefs(t, id, n), g.(hand := hand), ex)
  {
    assert SessionSound(t, g, ex, id);
    hide Sound, SessionSound, Holders;
    SessionWithRefs(t, g, ex, id, n, hand);
    hide WithRefs;
    SessionTouched(t, g, WithRefs(t, id, n), g.(hand := hand), ex, id);
  }

  lemma SessionWithRefs(t: Tables, g: Ledger, ex: Option<Id>, id: Id, n: nat, hand: multiset<Id>)
    requires id in t.sessions && SessionSound(t, g, ex, id) && n > 0
    requires n + g.hand[id] == t.sessions[id].refs + hand[id]
    requires forall k :: k != id ==> hand[k] == g.hand[k]
    ensures id in WithRefs(t, id, n).sessions
    ensures SessionSound(WithRefs(t, id, n), g.(hand := hand), ex, id)
    ensures TouchesOnly(t, g, WithRefs(t, id, n), g.(hand := hand), id)
    ensures WithRefs(t, id, n).sessions[id].state == t.sessions[id].state
  {
    assert WithRefs(t, id, n).sessions == t.sessions[id := t.sessions[id].(refs := n)];
  }

  // Small facts about sound tables.

  lemma Live(t: Tables, g: Ledger, ex: Option<Id>, id: Id)
    requires Sound(t, g, ex)
    requires id in t.sessions || g.hand[id] > 0 || id in g.creators || id in t.registry || id in t.gc
    ensures id in t.sessions && SessionSound(t, g, ex, id)
  {
  }

  lemma Held(t: Tables, g: Ledger, ex: Option<Id>, id: Id)
    requires Sound(t, g, ex) && (id in t.sessions || g.hand[id] > 0)
    ensures id in t.sessions && t.sessions[id].refs > 0
  {
    assert SessionSound(t, g, ex, id);
  }

  lemma StillThere(t: Tables, id: Id, n: nat)
    requires id in t.sessions
    ensures WithRefs(t, id, n).sessions.Keys == t.sessions.Keys
  {
  }

  lemma InRange(t: Tables, g: Ledger, ex: Option<Id>)
    requires Sound(t, g, ex)
    ensures forall fd :: fd in t.handlers ==> 0 <= fd < MAX_FD
  {
    assert forall fd :: fd in t.handlers ==> SlotSound(t, g, ex, fd);
  }

  lemma NewSerial(t: Tables, g: Ledger, ex: Option<Id>)
    requires Sound(t, g, ex)
    ensures t.nextSerial !in g.places
  {
    assert t.nextSerial in g.places ==> FreedOnce(t, g, t.nextSerial);
  }

  lemma Weaken(t: Tables, g: Ledger, id: Id)
    requires Sound(t, g, None)
    ensures Sound(t, g, Some(id))
  {
    forall k | k in t.sessions ensures SessionSound(t, g, Some(id), k) { assert SessionSound(t, g, None, k); }
    forall fd | fd in t.handlers ensures SlotSound(t, g, Some(id), fd) { assert SlotSound(t, g, None, fd); }
  }

  /** The end of `mark_closing`: nothing about the session is exceptional any more. */
  lemma Strengthen(t: Tables, g: Ledger, id: Id)
    requires Sound(t, g, Some(id)) && id in t.sessions
    requires t.sessions[id].state >= CLOSING && !t.sessions[id].registered
    requires t.sessions[id].fdIn !in t.handlers && t.sessions[id].fdOut !in t.handlers
    ensures Sound(t, g, None)
  {
    forall k | k in t.sessions ensures SessionSound(t, g, None, k) { assert SessionSound(t, g, Some(id), k); }
    forall fd | fd in t.handlers ensures SlotSound(t, g, None, fd) { assert SlotSound(t, g, Some(id), fd); }
  }

  /** Dropping a slot's reference never frees the owner: an open owner is registered, the closing one is held. */
  lemma SlotOwnerSurvives(t: Tables, g: Ledger, ex: Option<Id>, fd: int)
    requires Sound(t, g, ex) && fd in t.handlers && t.handlers[fd].holds && t.handlers[fd].owner.Some?
    requires ex.Some? ==> g.hand[ex.value] > 0
    ensures t.handlers[fd].owner.value in t.sessions && t.sessions[t.handlers[fd].owner.value].refs > 1
  {
    var id := t.handlers[fd].owner.value;
    assert SlotSound(t, g, ex, fd);
    assert SessionSound(t, g, ex, id);
  }

  // What an operation leaves alone.

  /** The same sessions are alive, and all but `but` are the same up to their reference counts. */
  ghost predicate BodiesKept(t: Tables, t': Tables, but: Option<Id>)
  {
    && t'.nextId == t.nextId && t'.sessions.Keys == t.sessions.Keys
    && (forall id :: id in t.sessions && Some(id) != but ==> SameBody(t.sessions[id], t'.sessions[id]))
  }

  lemma KeptTrans(t: Tables, t1: Tables, t2: Tables, but: Option<Id>)
    requires BodiesKept(t, t1, but) && BodiesKept(t1, t2, but)
    ensures BodiesKept(t, t2, but)
  {
  }

  lemma KeptRefs(t: Tables, id: Id, n: nat)
    requires id in t.sessions
    ensures BodiesKept(t, WithRefs(t, id, n), None)
  {
  }

  lemma KeptSelf(t: Tables)
    ensures BodiesKept(t, t, None)
  {
  }

  lemma KeptSame(t: Tables, t': Tables)
    requires t'.sessions == t.sessions && t'.nextId == t.nextId
    ensures BodiesKept(t, t', None)
  {
  }

  lemma KeptSlot(t: Tables, fd: int)
    requires fd in t.handlers
    ensures BodiesKept(t, Released(t, fd), None)
  {
  }

  lemma KeptBody(t: Tables, t': Tables, id: Id)
    requires BodiesKept(t, t', None) && id in t.sessions
    ensures id in t'.sessions && SameBody(t.sessions[id], t'.sessions[id])
  {
  }

  lemma KeptBut(t: Tables, t': Tables, id: Id)
    requires BodiesKept(t, t', None)
    ensures BodiesKept(t, t', Some(id))
  {
  }

  /** Every slot is there with its old contents, or gone. */
  ghost predicate HandlersShrink(h: map<int, Slot>, h': map<int, Slot>)
  {
    forall fd :: fd in h' ==> fd in h && h'[fd] == h[fd]
  }

  /** A slot that names a session holds a reference on it. */
  ghost predicate Settled(h: map<int, Slot>)
  {
    forall fd :: fd in h && h[fd].owner.Some? ==> h[fd].holds
  }

  ghost predicate SameHolds(g: Ledger, g': Ledger)
  {
    g'.creators == g.creators && g'.hand == g.hand && g'.freed == g.freed && g'.pipeCloses == g.pipeCloses
  }

  // States, closing and draining.

  lemma KeptOthers(t: Tables, t': Tables, id: Id)
    requires id in t.sessions && t'.nextId == t.nextId && t'.sessions.Keys == t.sessions.Keys
    requires forall k :: k in t.sessions && k != id ==> t'.sessions[k] == t.sessions[k]
    ensures BodiesKept(t, t', Some(id))
  {
  }

  function WithState(t: Tables, id: Id, state: int): (r: Tables)
    requires id in t.sessions
  {
    t.(sessions := t.sessions[id := t.sessions[id].(state := state)])
  }

  lemma StateSet(t: Tables, g: Ledger, ex: Option<Id>, id: Id, state: int)
    requires Sound(t, g, ex) && id in t.sessions && IDLE <= state <= DESTROY_PENDING
    requires t.sessions[id].state >= CLOSING ==> state >= CLOSING
    requires state >= CLOSING ==> ex == Some(id) || t.sessions[id].state >= CLOSING
    ensures Sound(WithState(t, id, state), g, ex)
  {
    assert SessionSound(t, g, ex, id);
    hide Sound, SessionSound, Holders;
    SessionWithState(t, g, ex, id, state);
    hide WithState;
    SessionTouched(t, g, WithState(t, id, state), g, ex, id);
  }

  lemma SessionWithState(t: Tables, g: Ledger, ex: Option<Id>, id: Id, state: int)
    requires id in t.sessions && SessionSound(t, g, ex, id) && IDLE <= state <= DESTROY_PENDING
    requires t.sessions[id].state >= CLOSING ==> state >= CLOSING
    requires state >= CLOSING ==> ex == Some(id) || t.sessions[id].state >= CLOSING
    ensures id in WithState(t, id, state).sessions && WithState(t, id, state).sessions[id].state == state
    ensures SessionSound(WithState(t, id, state), g, ex, id)
    ensures TouchesOnly(t, g, WithState(t, id, state), g, id)
  {
    assert WithState(t, id, state).sessions == t.sessions[id := t.sessions[id].(state := state)];
  }

  /** A session at or past CLOSING has no slot, and an open one has never been queued or drained. */
  lemma ClosingFacts(t: Tables, g: Ledger, id: Id)
    requires Sound(t, g, None) && id in t.sessions
    ensures t.sessions[id].state >= CLOSING ==>
              !SlotHolds(t.handlers, t.sessions[id].fdIn, id) && !SlotHolds(t.handlers, t.sessions[id].fdOut, id)
    ensures t.sessions[id].registered <==> t.sessions[id].state < CLOSING
    ensures id in t.registry <==> t.sessions[id].state < CLOSING
    ensures t.sessions[id].state < CLOSING ==> !t.sessions[id].drained && t.sessions[id].pipeOpen
  {
    var s := t.sessions[id];
    assert SessionSound(t, g, None, id);
    assert s.fdIn in t.handlers ==> SlotSound(t, g, None, s.fdIn);
    assert s.fdOut in t.handlers ==> SlotSound(t, g, None, s.fdOut);
  }

  lemma NotQueued(t: Tables, g: Ledger, ex: Option<Id>, id: Id)
    requires Sound(t, g, ex) && id in t.sessions && t.sessions[id].state < CLOSING
    ensures !t.sessions[id].gcEnqueued && (t.sessions[id].registered <==> id in t.registry)
  {
    assert SessionSound(t, g, ex, id);
  }

  /** `mark_closing` on an open session: queued once, unregistered, its descriptors out of the reactor. */
  ghost predicate ClosedBy(t: Tables, g: Ledger, t': Tables, g': Ledger, id: Id)
  {
    && id in t.sessions && id in t'.sessions && BodiesKept(t, t', Some(id)) && SameHolds(g, g')
    && t'.sessions[id] == t.sessions[id].(state := DESTROY_PENDING, registered := false, gcEnqueued := true,
                                          refs := t'.sessions[id].refs)
    && t'.registry == Without(t.registry, id) && t'.gc == t.gc + [id]
    && t'.handlers == t.handlers - {t.sessions[id].fdIn, t.sessions[id].fdOut}
  }

  lemma ClosedFrom(t: Tables, g: Ledger, n: nat, g1: Ledger, t': Tables, g': Ledger, id: Id)
    requires id in t.sessions && ClosedBy(WithRefs(t, id, n), g1, t', g', id) && SameHolds(g, g1)
    ensures ClosedBy(t, g, t', g', id)
  {
    KeptOthers(t, WithRefs(t, id, n), id);
    hide BodiesKept, Without;
    KeptTrans(t, WithRefs(t, id, n), t', Some(id));
  }

  // Creators.

  function Created(t: Tables, fdIn: int, fdOut: int): (r: Tables)
  {
    t.(sessions := t.sessions[t.nextId := Session(fdIn, fdOut, IDLE, 2, true, false, false, true, 0)],
       nextId := t.nextId + 1, registry := [t.nextId] + t.registry)
  }

  lemma SessionCreated(t: Tables, g: Ledger, fdIn: int, fdOut: int)
    requires Sound(t, g, None)
    ensures t.nextId !in t.sessions && Sound(Created(t, fdIn, fdOut), g.(creators := g.creators + {t.nextId}), None)
  {
    var t', g' := Created(t, fdIn, fdOut), g.(creators := g.creators + {t.nextId});
    hide SlotsSound, RunsSound, SessionsSound, OnlyLive;
    NewUnused(t, g, fdIn);
    NewUnused(t, g, fdOut);
    HandlersUntouched(t, g, t', g', None);
    SessionsAfterCreate(t, g, fdIn, fdOut);
    LiveAfterCreate(t, g, fdIn, fdOut);
  }

  lemma LiveAfterCreate(t: Tables, g: Ledger, fdIn: int, fdOut: int)
    requires OnlyLive(t, g) && NoDuplicates(t.registry) && t.nextId !in t.sessions
    ensures NoDuplicates(Created(t, fdIn, fdOut).registry)
    ensures OnlyLive(Created(t, fdIn, fdOut), g.(creators := g.creators + {t.nextId}))
  {
    assert t.nextId !in t.registry;
  }

  lemma NewUnused(t: Tables, g: Ledger, fd: int)
    requires SlotsSound(t, g, None) && SessionsSound(t, g, None)
    ensures !SlotHolds(t.handlers, fd, t.nextId) && t.nextId !in t.sessions
  {
    assert fd in t.handlers ==> SlotSound(t, g, None, fd);
    assert t.nextId in t.sessions ==> SessionSound(t, g, None, t.nextId);
  }

  lemma SessionsAfterCreate(t: Tables, g: Ledger, fdIn: int, fdOut: int)
    requires SessionsSound(t, g, None) && OnlyLive(t, g)
    requires !SlotHolds(t.handlers, fdIn, t.nextId) && !SlotHolds(t.handlers, fdOut, t.nextId)
    ensures SessionsSound(Created(t, fdIn, fdOut), g.(creators := g.creators + {t.nextId}), None)
  {
    var t', g' := Created(t, fdIn, fdOut), g.(creators := g.creators + {t.nextId});
    assert forall id :: id in t.sessions ==> SessionSound(t, g, None, id);
    forall k | k in t'.sessions
      ensures SessionSound(t', g', None, k)
    {
      assert k in t'.registry <==> k in t.registry || k == t.nextId;
    }
  }

  /** The creator's reference passes to the running code. */
  lemma CreatorLeft(t: Tables, g: Ledger, id: Id)
    requires Sound(t, g, None) && id in g.creators
    ensures id in t.sessions && Sound(t, g.(creators := g.creators - {id}, hand := g.hand + multiset{id}), None)
  {
    var g' := g.(creators := g.creators - {id}, hand := g.hand + multiset{id});
    assert SessionSound(t, g, None, id);
    hide Sound, SessionsSound;
    assert t.sessions == t.sessions[id := t.sessions[id]];
    assert SessionSound(t, g', None, id);
    hide SessionSound;
    SessionTouched(t, g, t, g', None, id);
  }

  /** A session is alive only as long as its creator, the registry, the GC queue or running code wants it. */
  lemma Anchored(t: Tables, g: Ledger, id: Id)
    requires Sound(t, g, None) && id in t.sessions
    ensures id in g.creators || id in t.registry || id in t.gc || g.hand[id] > 0
  {
    assert SessionSound(t, g, None, id);
    hide Sound;
    ClosingFacts(t, g, id);
  }

  /** Nobody is left behind: with no creator, registry or queue, every session has been freed. */
  lemma NoLeak(t: Tables, g: Ledger)
    requires Sound(t, g, None) && g.hand == multiset{} && g.creators == {} && t.registry == [] && t.gc == []
    ensures t.sessions == map[]
  {
    hide Sound;
    if t.sessions != map[] {
      var id :| id in t.sessions;
      Anchored(t, g, id);
    }
  }
}
