/**
 Session lifecycle over the reactor: creation, registration, closing, garbage collection and the emergency
 drain. `sessions` holds the allocated objects, so that every access below is also a proof that the
 object has not been freed.
 */
module Sessions {
  import opened Options
  import opened SessionTables
  import opened SessionRuns
  import opened SessionTransfer

  const VPN_IDLE := 0
  const VPN_PREDICTING := 1
  const VPN_READY := 2
  const VPN_TEARDOWN := 3

  /** The VPN snapshot of the context. */
  datatype Vpn = Vpn(state: int, ifId: int, iface: string, transitions: nat)

  /** A call of the mode callback. */
  datatype ModeCall = ModeCall(state: int, iface: string)

  /** `snprintf` into the 32 bytes of the context's interface name. */
  function Cut(iface: string): (r: string)
    ensures |r| <= 31 && r <= iface && (r != iface ==> |r| == 31)
  {
    if |iface| > 31 then iface[..31] else iface
  }

  /** What happens to the daemon, from outside. */
  datatype Event =
    | Open(fdIn: int, fdOut: int, ok: bool)
    | Enlist(id: Id, okIn: bool, okOut: bool)
    | LetGo(id: Id)
    | Destroy(id: Id)
    | Ready(fd: int, failed: bool)
    | Idle
    | Stop(memory: bool)
    | VpnChange(state: int, ifId: int, iface: string, memory: bool)
    | AddOther(fd: int, withFree: bool, ok: bool)
    | RemoveOther(fd: int)

  /** The daemon between two events. */
  datatype View = View(t: Tables, g: Ledger, vpn: Vpn, callers: set<Id>, outcomes: seq<int>)

  /** The emergency drain of all sessions. */
  ghost predicate AllDrained(a: View, b: View)
  {
    && b.t.registry == [] && b.t.gc == a.t.gc + a.t.registry
    && b.t.handlers == a.t.handlers - Fds(a.t.sessions, a.t.registry) && DrainingBodies(a.t, a.t.registry, b.t)
    && b.g.pipeCloses == a.g.pipeCloses + multiset(a.t.registry)
  }

  /** What each event does. An event that nothing could cause is ignored. */
  ghost predicate Handled(e: Event, a: View, b: View)
  {
    match e
    case Open(fdIn, fdOut, ok) =>
      && b.t == (if ok then Created(a.t, fdIn, fdOut) else a.t)
      && b.callers == a.callers + if ok then {a.t.nextId} else {}
    case Enlist(id, okIn, okOut) =>
      if id in a.callers && id in a.t.sessions && a.t.sessions[id].state == IDLE
      then
        var s := a.t.sessions[id];
        var ok := okIn && okOut && 0 <= s.fdIn < MAX_FD && 0 <= s.fdOut < MAX_FD;
        id in b.t.sessions && SameBody(s.(state := if ok then ACTIVE else IDLE), b.t.sessions[id])
        && (ok ==> s.fdOut in b.t.handlers && b.t.handlers[s.fdOut].callback == OutCallback
                   && b.t.handlers[s.fdOut].owner == Some(id))
        && (ok && s.fdIn != s.fdOut ==> s.fdIn in b.t.handlers && b.t.handlers[s.fdIn].callback == InCallback
                                        && b.t.handlers[s.fdIn].owner == Some(id))
      else b == a
    case LetGo(id) =>
      if id in a.callers
      then id in a.t.sessions && b.callers == a.callers - {id} && (id in b.t.sessions <==> a.t.sessions[id].refs > 1)
      else b == a
    case Destroy(id) =>
      if id in a.callers && id in a.t.sessions
      then id in b.t.sessions && b.t.sessions[id].state >= CLOSING && b.callers == a.callers
           && (a.t.sessions[id].state < CLOSING ==> ClosedBy(a.t, a.g, b.t, b.g, id))
      else b == a
    case Ready(fd, failed) => exists sent :: DispatchEffect(a.t, a.outcomes, fd, failed, b.t, b.outcomes, sent)
    case Idle => b.t == a.t.(sessions := b.t.sessions, gc := []) && CollectedBodies(a.t, a.g, a.t.gc, b.t, b.g)
    case Stop(memory) => if memory || a.t.registry == [] then AllDrained(a, b) else b == a
    case VpnChange(state, ifId, iface, memory) =>
      if !(VPN_IDLE <= state <= VPN_TEARDOWN) then b == a
      else
        && b.vpn.state == state && b.vpn.ifId == ifId && b.vpn.iface == Cut(iface)
        && (if state == VPN_TEARDOWN && a.vpn.state != VPN_TEARDOWN then memory ==> AllDrained(a, b)
            else b == a.(vpn := b.vpn))
    case AddOther(fd, withFree, ok) =>
      b.t.handlers == if ok && 0 <= fd < MAX_FD
                      then a.t.handlers[fd := Slot(a.t.nextSerial, OtherCallback, None, withFree)] else a.t.handlers
    case RemoveOther(fd) => b.t.handlers == a.t.handlers - {fd}
  }

  class Daemon {
    var t: Tables
    var vpn: Vpn
    var modeCalls: seq<ModeCall>
    var callers: set<Id>                   // creators that have not let go
    var outcomes: seq<int>                 // what the kernel will answer
    ghost var g: Ledger

    ghost predicate Valid()
      reads this
    {
      Sound(t, g, None) && g.hand == multiset{} && g.creators == callers && Settled(t.handlers)
    }

    ghost function Seen(): (v: View)
      reads this
    {
      View(t, g, vpn, callers, outcomes)
    }

    constructor (kernel: seq<int>)
      ensures Valid() && t.sessions == map[] && t.handlers == map[]
    {
      t := Tables(map[], 0, [], [], map[], 0, 0);
      g := Ledger({}, multiset{}, multiset{}, multiset{}, map[], multiset{});
      callers, outcomes, vpn := {}, kernel, Vpn(VPN_IDLE, 0, "", 0);
      modeCalls := [];
    }

    /** `atpd_session_get`. */
    method Get(id: Id, ghost ex: Option<Id>)
      requires Sound(t, g, ex) && id in t.sessions
      modifies this`t, this`g
      ensures Sound(t, g, ex) && g == old(g).(hand := old(g).hand + multiset{id})
      ensures t == WithRefs(old(t), id, old(t).sessions[id].refs + 1)
    {
      hide *;
      RefsMoved(t, g, ex, id, t.sessions[id].refs + 1, g.hand + multiset{id});
      g := g.(hand := g.hand + multiset{id});
      t := WithRefs(t, id, t.sessions[id].refs + 1);
    }

    /**
     `atpd_session_put` on a reference that the running code holds. The object is destroyed exactly when this
     was the last reference, and then nothing refers to it any more.
     */
    method Put(id: Id, ghost ex: Option<Id>)
      requires Sound(t, g, ex) && g.hand[id] > 0
      modifies this`t, this`g
      ensures Sound(t, g, ex) && id in old(t).sessions && old(t).sessions[id].refs > 0
      ensures id in t.sessions <==> old(t).sessions[id].refs > 1
      ensures id !in t.sessions ==>
                && t == old(t).(sessions := old(t).sessions - {id})
                && g == Freed(old(g), id, old(t).sessions[id].pipeOpen)
                && id !in t.registry && id !in t.gc && id !in g.creators && old(g).hand[id] == 1
                && !SlotHolds(t.handlers, old(t).sessions[id].fdIn, id)
                && !SlotHolds(t.handlers, old(t).sessions[id].fdOut, id)
      ensures id in t.sessions ==>
                && t == WithRefs(old(t), id, old(t).sessions[id].refs - 1)
                && g == old(g).(hand := old(g).hand - multiset{id})
    {
      hide *;
      Held(t, g, ex, id);
      if t.sessions[id].refs == 1 {
        DestroyInternal(id, ex);
      } else {
        RefsMoved(t, g, ex, id, t.sessions[id].refs - 1, g.hand - multiset{id});
        StillThere(t, id, t.sessions[id].refs - 1);
        g := g.(hand := g.hand - multiset{id});
        t := WithRefs(t, id, t.sessions[id].refs - 1);
      }
    }

    /** `atpd_session_destroy_internal`. */
    method DestroyInternal(id: Id, ghost ex: Option<Id>)
      requires Sound(t, g, ex) && g.hand[id] > 0 && id in t.sessions && t.sessions[id].refs == 1
      modifies this`t, this`g
      ensures Sound(t, g, ex)
      ensures t == old(t).(sessions := old(t).sessions - {id}) && g == Freed(old(g), id, old(t).sessions[id].pipeOpen)
      ensures id !in t.registry && id !in t.gc && id !in g.creators && old(g).hand[id] == 1
      ensures !SlotHolds(t.handlers, old(t).sessions[id].fdIn, id)
      ensures !SlotHolds(t.handlers, old(t).sessions[id].fdOut, id)
    {
      hide *;
      Live(t, g, ex, id);
      LastHolder(t, g, ex, id);
      SessionFreed(t, g, ex, id);
      g := Freed(g, id, t.sessions[id].pipeOpen);
      t := t.(sessions := t.sessions - {id});
    }

    /** `session_free_cb`, run once for the slot `fd`: its reference is dropped, and the owner lives on. */
    method FreeSlot(fd: int, ghost ex: Option<Id>)
      requires Sound(t, g, ex) && fd in t.handlers && t.handlers[fd].holds && (ex.Some? ==> g.hand[ex.value] > 0)
      modifies this`t, this`g
      ensures Sound(t, g, ex) && BodiesKept(old(t), t, None) && SameHolds(old(g), g)
      ensures t == Released(old(t), fd).(sessions := t.sessions)
      ensures g == old(g).(freeRuns := old(g).freeRuns + multiset{old(t).handlers[fd].serial})
    {
      hide Sound, BodiesKept;
      var h := t.handlers[fd];
      ghost var t0, g0 := t, g;
      if h.owner.Some? { SlotOwnerSurvives(t, g, ex, fd); }
      SlotReleased(t, g, ex, fd);
      g := RanFree(g, h);
      t := Released(t, fd);
      KeptSlot(t0, fd);
      if h.owner.Some? {
        ghost var t1 := t;
        Put(h.owner.value, ex);
        KeptRefs(t1, h.owner.value, t1.sessions[h.owner.value].refs - 1);
        KeptTrans(t0, t1, t, None);
        assert g.hand == g0.hand;
      }
    }

    /** `reactor_remove_fd`. */
    method RemoveFd(fd: int, ghost ex: Option<Id>)
      requires Sound(t, g, ex) && (ex.Some? ==> g.hand[ex.value] > 0)
      modifies this`t, this`g
      ensures Sound(t, g, ex) && BodiesKept(old(t), t, None) && SameHolds(old(g), g)
      ensures t == old(t).(sessions := t.sessions, handlers := old(t).handlers - {fd},
                           activeHandlers := t.activeHandlers)
    {
      hide Sound, BodiesKept;
      InRange(t, g, ex);
      KeptSelf(t);
      if fd < 0 || fd >= MAX_FD || fd !in t.handlers {
        assert t.handlers - {fd} == t.handlers;
        return;
      }
      ghost var t0 := t;
      if t.handlers[fd].holds { FreeSlot(fd, ex); }
      ghost var t1 := t;
      SlotCleared(t, g, ex, fd);
      t := Cleared(t, fd);
      KeptSame(t1, t);
      KeptTrans(t0, t1, t, None);
      assert t.handlers == t0.handlers - {fd};
    }

    /** `reactor_add_fd`: whatever was registered on the descriptor has had its free callback run. */
    method AddFd(fd: int, cb: Callback, owner: Option<Id>, ok: bool) returns (added: bool)
      requires Sound(t, g, None)
      modifies this`t, this`g
      ensures Sound(t, g, None) && BodiesKept(old(t), t, None) && SameHolds(old(g), g)
      ensures added <==> ok && 0 <= fd < MAX_FD
      ensures !added ==> t == old(t) && g == old(g)
      ensures added ==>
                && t.handlers == old(t).handlers[fd := Slot(old(t).nextSerial, cb, owner, false)]
                && t.registry == old(t).registry && t.gc == old(t).gc
                && t.nextSerial == old(t).nextSerial + 1 && old(t).nextSerial !in g.places
    {
      hide Sound, BodiesKept;
      KeptSelf(t);
      if fd < 0 || fd >= MAX_FD || !ok { return false; }
      ghost var t0, g0 := t, g;
      if fd in t.handlers && t.handlers[fd].holds { FreeSlot(fd, None); }
      ghost var t1 := t;
      SlotInstalled(t, g, None, fd, cb, owner);
      NewSerial(t, g, None);
      t := Installed(t, fd, cb, owner);
      KeptSame(t1, t);
      KeptTrans(t0, t1, t, None);
      added := true;
    }

    /** `reactor_add_fd_ex`: on success the caller's reference on the owner is the slot's. */
    method AddFdEx(fd: int, cb: Callback, owner: Option<Id>, ok: bool) returns (added: bool)
      requires Sound(t, g, None)
      requires owner.Some? ==>
                 && owner.value in t.sessions && g.hand[owner.value] > 0
                 && t.sessions[owner.value].state < CLOSING
                 && fd in {t.sessions[owner.value].fdIn, t.sessions[owner.value].fdOut}
      modifies this`t, this`g
      ensures Sound(t, g, None) && BodiesKept(old(t), t, None)
      ensures added <==> ok && 0 <= fd < MAX_FD
      ensures !added ==> t == old(t) && g == old(g)
      ensures added ==>
                && t.handlers == old(t).handlers[fd := Slot(old(t).nextSerial, cb, owner, true)]
                && t.registry == old(t).registry && t.gc == old(t).gc && t.nextSerial == old(t).nextSerial + 1
                && g.creators == old(g).creators && g.freed == old(g).freed && g.pipeCloses == old(g).pipeCloses
                && g.hand == if owner.Some? then old(g).hand - multiset{owner.value} else old(g).hand
    {
      hide Sound, BodiesKept;
      ghost var t0 := t;
      added := AddFd(fd, cb, owner, ok);
      if !added { return; }
      ghost var t1 := t;
      if owner.Some? { KeptBody(t0, t, owner.value); }
      SlotArmed(t, g, None, fd);
      g := Taken(g, t.handlers[fd], fd);
      t := Armed(t, fd);
      KeptSame(t1, t);
      KeptTrans(t0, t1, t, None);
    }

    /** `session_set_state`: a state at or past CLOSING never goes back. */
    method SetState(id: Id, desired: int, ghost ex: Option<Id>) returns (ok: bool)
      requires Sound(t, g, ex) && id in t.sessions && IDLE <= desired <= DESTROY_PENDING
      requires desired >= CLOSING ==> ex == Some(id) || t.sessions[id].state >= CLOSING
      modifies this`t
      ensures Sound(t, g, ex)
      ensures ok <==> old(t).sessions[id].state < CLOSING || desired >= CLOSING
      ensures t == if ok then WithState(old(t), id, desired) else old(t)
    {
      hide Sound;
      if t.sessions[id].state >= CLOSING && desired < CLOSING { return false; }
      StateSet(t, g, ex, id, desired);
      t := WithState(t, id, desired);
      ok := true;
    }

    /** `session_registry_remove`, on behalf of code that holds a reference of its own. */
    method RegistryRemove(id: Id)
      requires Sound(t, g, Some(id)) && id in t.registry && id in t.sessions && t.sessions[id].refs > 1
      modifies this`t, this`g
      ensures Sound(t, g, Some(id)) && SameHolds(old(g), g)
      ensures t == WithRefs(Unregistered(old(t), id), id, old(t).sessions[id].refs - 1)
    {
      hide Sound, Without;
      ghost var g0 := g;
      RegistryLeft(t, g, id);
      g := g.(hand := g.hand + multiset{id});
      t := Unregistered(t, id);
      Put(id, Some(id));
      assert g.hand == g0.hand;
    }

    /** `atpd_session_gc_enqueue`, on behalf of code that holds a reference of its own. */
    method GcEnqueue(id: Id)
      requires Sound(t, g, None) && id in t.sessions && t.sessions[id].state >= CLOSING
      modifies this`t, this`g
      ensures Sound(t, g, None) && SameHolds(old(g), g)
      ensures t == if old(t).sessions[id].gcEnqueued then old(t)
                   else WithRefs(Enqueued(old(t), id), id, old(t).sessions[id].refs + 1)
    {
      hide Sound;
      if t.sessions[id].gcEnqueued { return; }
      ghost var g0 := g;
      Get(id, None);
      ClosingFacts(t, g, id);
      GcJoined(t, g, None, id);
      g := g.(hand := g.hand - multiset{id});
      t := Enqueued(t, id);
      assert g.hand == g0.hand;
    }

    /** The middle of `mark_closing`: CLOSING, out of the registry, out of the reactor. */
    method Detach(id: Id)
      requires Sound(t, g, Some(id)) && id in t.sessions && t.sessions[id].state < CLOSING && t.sessions[id].registered
      requires g.hand[id] > 0 && t.sessions[id].refs > 1
      modifies this`t, this`g
      ensures Sound(t, g, None) && SameHolds(old(g), g) && BodiesKept(old(t), t, Some(id)) && id in t.sessions
      ensures t.sessions[id] == old(t).sessions[id].(state := CLOSING, registered := false, refs := t.sessions[id].refs)
      ensures t.registry == Without(old(t).registry, id) && t.gc == old(t).gc
      ensures t.handlers == old(t).handlers - {old(t).sessions[id].fdIn, old(t).sessions[id].fdOut}
    {
      hide Sound, BodiesKept, Without;
      ghost var t0 := t;
      NotQueued(t, g, Some(id), id);
      var _ := SetState(id, CLOSING, Some(id));
      RegistryRemove(id);
      KeptOthers(t0, t, id);
      ghost var t1 := t;
      RemoveBoth(t.sessions[id].fdIn, t.sessions[id].fdOut, Some(id));
      KeptBody(t1, t, id);
      KeptBut(t1, t, id);
      KeptTrans(t0, t1, t, Some(id));
      Strengthen(t, g, id);
    }

    method RemoveBoth(fdIn: int, fdOut: int, ghost ex: Option<Id>)
      requires Sound(t, g, ex) && (ex.Some? ==> g.hand[ex.value] > 0)
      modifies this`t, this`g
      ensures Sound(t, g, ex) && BodiesKept(old(t), t, None) && SameHolds(old(g), g)
      ensures t == old(t).(sessions := t.sessions, handlers := old(t).handlers - {fdIn, fdOut},
                           activeHandlers := t.activeHandlers)
    {
      hide Sound, BodiesKept;
      ghost var t0 := t;
      RemoveFd(fdIn, ex);
      ghost var t1 := t;
      RemoveFd(fdOut, ex);
      KeptTrans(t0, t1, t, None);
      assert t.handlers == t0.handlers - {fdIn, fdOut};
    }

    /** The rest of `mark_closing` on an open session: queued, and the reference taken on entry dropped. */
    method CloseOpen(id: Id)
      requires Sound(t, g, Some(id)) && id in t.sessions && t.sessions[id].state < CLOSING && t.sessions[id].registered
      requires g.hand[id] > 0 && t.sessions[id].refs > 1
      modifies this`t, this`g
      ensures Sound(t, g, None)
      ensures ClosedBy(old(t), old(g).(hand := old(g).hand - multiset{id}), t, g, id)
    {
      hide Sound, BodiesKept, Without;
      NotQueued(t, g, Some(id), id);
      ghost var t0 := t;
      Detach(id);
      ghost var t1 := t;
      GcEnqueue(id);
      Put(id, None);
      KeptOthers(t1, t, id);
      KeptTrans(t0, t1, t, Some(id));
    }

    /**
     `atpd_session_mark_closing`: nothing at all on a session that is closing already; otherwise the session
     leaves the registry and the reactor and is queued, and every other session keeps all but its count.
     */
    method MarkClosing(id: Id)
      requires Sound(t, g, Some(id)) && id in t.sessions
      requires t.sessions[id].registered == (t.sessions[id].state < CLOSING)
      modifies this`t, this`g
      ensures Sound(t, g, Some(id))
      ensures old(t).sessions[id].state >= CLOSING ==> t == old(t) && g == old(g)
      ensures old(t).sessions[id].state < CLOSING ==> Sound(t, g, None) && ClosedBy(old(t), old(g), t, g, id)
    {
      hide Sound, BodiesKept, Without, ClosedBy;
      ghost var t0, g0 := t, g;
      Held(t, g, Some(id), id);
      Get(id, Some(id));
      if t.sessions[id].state >= CLOSING {
        Put(id, Some(id));
        assert t.sessions == t0.sessions && g.hand == g0.hand;
      } else {
        ghost var g1 := g.(hand := g.hand - multiset{id});
        CloseOpen(id);
        assert g1.hand == g0.hand;
        ClosedFrom(t0, g0, t0.sessions[id].refs + 1, g1, t, g, id);
        Weaken(t, g, id);
      }
    }

    /** `atpd_session_create`: one reference for the caller and one for the registry. */
    method Create(fdIn: int, fdOut: int, ok: bool) returns (r: Option<Id>)
      requires Sound(t, g, None) && g.creators == callers
      modifies this`t, this`g, this`callers
      ensures Sound(t, g, None) && g.creators == callers && g == old(g).(creators := g.creators)
      ensures r == if ok then Some(old(t).nextId) else None
      ensures !ok ==> t == old(t) && callers == old(callers)
      ensures ok ==> t == Created(old(t), fdIn, fdOut) && callers == old(callers) + {r.value}
      ensures ok ==>
                && r.value !in old(t).sessions && r.value in t.sessions
                && var s := t.sessions[r.value];
                   && s.fdIn == fdIn && s.fdOut == fdOut && s.state == IDLE && s.pending == 0 && s.pipeOpen
                   && s.refs == 2 && s.registered && t.registry == [r.value] + old(t).registry
    {
      hide Sound;
      if !ok { return None; }
      SessionCreated(t, g, fdIn, fdOut);
      r := Some(t.nextId);
      g := g.(creators := g.creators + {t.nextId});
      callers := callers + {t.nextId};
      t := Created(t, fdIn, fdOut);
    }

    /** `atpd_session_put` by the creator. */
    method CreatorPut(id: Id)
      requires Sound(t, g, None) && g.creators == callers && id in callers && g.hand == multiset{}
      modifies this`t, this`g, this`callers
      ensures Sound(t, g, None) && g.creators == callers == old(callers) - {id} && g.hand == multiset{}
      ensures id in old(t).sessions && (id in t.sessions <==> old(t).sessions[id].refs > 1)
      ensures id in t.sessions ==> t == WithRefs(old(t), id, old(t).sessions[id].refs - 1) && g.freed == old(g).freed
      ensures id !in t.sessions ==>
                t == old(t).(sessions := old(t).sessions - {id}) && g.freed == old(g).freed + multiset{id}
    {
      hide Sound;
      CreatorLeft(t, g, id);
      g := g.(creators := g.creators - {id}, hand := g.hand + multiset{id});
      callers := callers - {id};
      Put(id, None);
    }

    /** `atpd_session_register`: both descriptors are in the reactor and the session is ACTIVE, or neither is. */
    method Register(id: Id, okIn: bool, okOut: bool) returns (ok: bool)
      requires Sound(t, g, None) && id in t.sessions && t.sessions[id].state < CLOSING
      modifies this`t, this`g
      ensures Sound(t, g, None) && SameHolds(old(g), g) && BodiesKept(old(t), t, Some(id)) && id in t.sessions
      ensures t.registry == old(t).registry && t.gc == old(t).gc
      ensures var s := old(t).sessions[id];
              && (ok <==> okIn && okOut && 0 <= s.fdIn < MAX_FD && 0 <= s.fdOut < MAX_FD)
              && SameBody(s.(state := if ok then ACTIVE else s.state), t.sessions[id])
              && t.handlers == (if ok then
                                  old(t).handlers[s.fdIn := Slot(old(t).nextSerial, InCallback, Some(id), true)]
                                                 [s.fdOut := Slot(old(t).nextSerial + 1, OutCallback, Some(id), true)]
                                else if okIn && 0 <= s.fdIn < MAX_FD then old(t).handlers - {s.fdIn}
                                else old(t).handlers)
    {
      hide Sound, BodiesKept;
      ghost var t0 := t;
      ok := AddBoth(id, okIn, okOut);
      KeptBut(t0, t, id);
      KeptBody(t0, t, id);
      if ok {
        ghost var t1 := t;
        var _ := SetState(id, ACTIVE, None);
        KeptOthers(t1, t, id);
        KeptTrans(t0, t1, t, Some(id));
      }
    }

    /** Handlers for both descriptors, or, when the reactor refuses one, for neither. */
    method AddBoth(id: Id, okIn: bool, okOut: bool) returns (ok: bool)
      requires Sound(t, g, None) && id in t.sessions && t.sessions[id].state < CLOSING
      modifies this`t, this`g
      ensures Sound(t, g, None) && SameHolds(old(g), g) && BodiesKept(old(t), t, None)
      ensures t.registry == old(t).registry && t.gc == old(t).gc
      ensures var s := old(t).sessions[id];
              && (ok <==> okIn && okOut && 0 <= s.fdIn < MAX_FD && 0 <= s.fdOut < MAX_FD)
              && t.handlers == (if ok then
                                  old(t).handlers[s.fdIn := Slot(old(t).nextSerial, InCallback, Some(id), true)]
                                                 [s.fdOut := Slot(old(t).nextSerial + 1, OutCallback, Some(id), true)]
                                else if okIn && 0 <= s.fdIn < MAX_FD then old(t).handlers - {s.fdIn}
                                else old(t).handlers)
    {
      hide Sound, BodiesKept;
      ghost var t0 := t;
      ok := AddOwned(id, t.sessions[id].fdIn, InCallback, okIn);
      KeptBody(t0, t, id);
      if !ok { return; }
      ghost var t1 := t;
      ok := AddOwned(id, t.sessions[id].fdOut, OutCallback, okOut);
      KeptBody(t1, t, id);
      KeptTrans(t0, t1, t, None);
      if !ok {
        ghost var t2 := t;
        RemoveFd(t.sessions[id].fdIn, None);
        KeptTrans(t0, t2, t, None);
        assert t.handlers == t0.handlers - {t0.sessions[id].fdIn};
      }
    }

    /** A reference for a descriptor's handler, given back when the reactor refuses it. */
    method AddOwned(id: Id, fd: int, cb: Callback, accepted: bool) returns (ok: bool)
      requires Sound(t, g, None) && id in t.sessions && t.sessions[id].state < CLOSING
      requires fd in {t.sessions[id].fdIn, t.sessions[id].fdOut}
      modifies this`t, this`g
      ensures Sound(t, g, None) && SameHolds(old(g), g) && BodiesKept(old(t), t, None)
      ensures t.registry == old(t).registry && t.gc == old(t).gc
      ensures ok <==> accepted && 0 <= fd < MAX_FD
      ensures ok ==> t.handlers == old(t).handlers[fd := Slot(old(t).nextSerial, cb, Some(id), true)]
                     && t.nextSerial == old(t).nextSerial + 1
      ensures !ok ==> t.handlers == old(t).handlers
    {
      hide Sound, BodiesKept;
      ghost var t0, g0 := t, g;
      Held(t, g, None, id);
      Get(id, None);
      KeptRefs(t0, id, t0.sessions[id].refs + 1);
      ghost var t1 := t;
      ok := AddFdEx(fd, cb, Some(id), accepted);
      if !ok {
        Put(id, None);
        KeptRefs(t1, id, t0.sessions[id].refs);
      }
      KeptTrans(t0, t1, t, None);
      assert g.hand == g0.hand;
    }

    /** `atpd_session_destroy`. */
    method Close(id: Id)
      requires Sound(t, g, None) && id in t.sessions
      modifies this`t, this`g
      ensures Sound(t, g, None)
      ensures old(t).sessions[id].state >= CLOSING ==> t == old(t) && g == old(g)
      ensures old(t).sessions[id].state < CLOSING ==> ClosedBy(old(t), old(g), t, g, id)
      ensures TouchedBy(old(t), old(g), t, g, id) && id in t.sessions && t.sessions[id].state >= CLOSING
    {
      hide Sound, TouchedBy, BodiesKept, Without;
      ghost var t0, g0 := t, g;
      ClosingFacts(t, g, id);
      Weaken(t, g, id);
      MarkClosing(id);
      if t0.sessions[id].state < CLOSING { TouchedClosed(t0, g0, t, g, id); } else { TouchedSelf(t, g, id); }
    }

    /**
     `atpd_session_gc_process`: the queue's references are dropped, and exactly the queued sessions that nothing
     else holds are freed, once each.
     */
    method GcProcess()
      requires Sound(t, g, None)
      modifies this`t, this`g
      ensures Sound(t, g, None) && g.hand == old(g).hand && g.creators == old(g).creators
      ensures t == old(t).(sessions := t.sessions, gc := [])
      ensures CollectedBodies(old(t), old(g), old(t).gc, t, g)
    {
      ghost var t0, g0 := t, g;
      var queue := t.gc;
      assert NoDuplicates(queue);
      hide *;
      GcTaken(t, g, None);
      CollectStart(t, g);
      g := g.(hand := g.hand + multiset(t.gc));
      t := t.(gc := []);
      var i := 0;
      while i < |queue|
        invariant 0 <= i <= |queue| && Sound(t, g, None) && Collected(t0, g0, i, t, g)
      {
        ghost var t1, g1 := t, g;
        CollectNext(t0, g0, i, t, g);
        Put(queue[i], None);
        PutIs(t1, g1, t, g, queue[i]);
        CollectStep(t0, g0, i, t1, g1, t, g);
        i := i + 1;
      }
      CollectEnd(t0, g0, t, g);
    }

    /** `emergency_drain`: the pipe is closed once, its bytes given up, and an open session is closed. */
    method EmergencyDrain(id: Id)
      requires Sound(t, g, None) && id in t.sessions
      modifies this`t, this`g
      ensures Sound(t, g, None)
      ensures var s := old(t).sessions[id];
              if s.drained then t == old(t) && g == old(g)
              else if s.state < CLOSING then DrainedBy(old(t), old(g), t, g, id)
              else t == PipeClosed(old(t), id) && g == old(g).(pipeCloses := old(g).pipeCloses + multiset{id})
    {
      hide Sound, BodiesKept, ClosedBy;
      if t.sessions[id].drained { return; }
      ClosingFacts(t, g, id);
      if t.sessions[id].state < CLOSING {
        Weaken(t, g, id);
        PipeClosedSound(t, g, Some(id), id);
        g := g.(pipeCloses := g.pipeCloses + multiset{id});
        t := PipeClosed(t, id);
        MarkClosing(id);
      } else {
        PipeClosedSound(t, g, None, id);
        g := g.(pipeCloses := g.pipeCloses + multiset{id});
        t := PipeClosed(t, id);
      }
    }

    /** The snapshot of `emergency_drain_all`: one reference on every registered session. */
    method Snapshot() returns (ids: seq<Id>)
      requires Sound(t, g, None)
      modifies this`t, this`g
      ensures Sound(t, g, None) && BodiesKept(old(t), t, None) && ids == old(t).registry
      ensures t == old(t).(sessions := t.sessions) && g == old(g).(hand := old(g).hand + multiset(ids))
    {
      hide Sound, BodiesKept;
      ghost var t0, g0 := t, g;
      ids := t.registry;
      KeptSelf(t);
      var i := 0;
      while i < |ids|
        invariant 0 <= i <= |ids| && Sound(t, g, None) && BodiesKept(t0, t, None)
        invariant t == t0.(sessions := t.sessions) && g == g0.(hand := g0.hand + multiset(ids[..i]))
      {
        ghost var t1 := t;
        Registered(t, g, ids[i]);
        assert ids[..i + 1] == ids[..i] + [ids[i]];
        Get(ids[i], None);
        KeptRefs(t1, ids[i], t1.sessions[ids[i]].refs + 1);
        KeptTrans(t0, t1, t, None);
        i := i + 1;
      }
      assert ids[..|ids|] == ids;
    }

    /**
     `atpd_session_emergency_drain_all`: the registry is empty, the sessions it held are queued once, closed,
     out of the reactor and their pipes closed once; nothing is freed and no other session changes. Without
     memory for the snapshot it does nothing.
     */
    method DrainAll(memory: bool)
      requires Sound(t, g, None)
      modifies this`t, this`g
      ensures Sound(t, g, None) && g.hand == old(g).hand && g.creators == old(g).creators && g.freed == old(g).freed
      ensures !memory && old(t).registry != [] ==> t == old(t) && g == old(g)
      ensures memory || old(t).registry == [] ==>
                && t.registry == [] && t.gc == old(t).gc + old(t).registry
                && t.handlers == old(t).handlers - Fds(old(t).sessions, old(t).registry)
                && DrainingBodies(old(t), old(t).registry, t)
                && g.pipeCloses == old(g).pipeCloses + multiset(old(t).registry)
    {
      if t.registry != [] && !memory { return; }
      ghost var t0, g0 := t, g;
      assert NoDuplicates(t0.registry);
      hide *;
      var ids := Snapshot();
      DrainStart(t0, g0, t, g);
      var i := 0;
      while i < |ids|
        invariant 0 <= i <= |ids| && Sound(t, g, None) && Draining(t0, g0, i, t, g)
      {
        DrainOne(ids[i], t0, g0, i);
        i := i + 1;
      }
      DrainEnd(t0, g0, t, g);
    }

    /** The next session of the snapshot. */
    method DrainOne(id: Id, ghost t0: Tables, ghost g0: Ledger, ghost i: nat)
      requires Sound(t0, g0, None) && NoDuplicates(t0.registry) && i < |t0.registry| && id == t0.registry[i]
      requires Sound(t, g, None) && Draining(t0, g0, i, t, g)
      modifies this`t, this`g
      ensures Sound(t, g, None) && Draining(t0, g0, i + 1, t, g)
    {
      hide *;
      ghost var t1, g1 := t, g;
      DrainNext(t0, g0, i, t, g);
      Distinct(t, g);
      if t.sessions[id].state < CLOSING {
        EmergencyDrain(id);
      }
      ghost var t2, g2 := t, g;
      DrainHeld(t1, g1, t, g, id);
      Put(id, None);
      DrainStep(t0, g0, i, t1, g1, t2, g2, t2.sessions[id].refs - 1);
    }

    /** The kernel's next answer, at most `limit`; at the end of the script, end of file. */
    method Answer(limit: nat) returns (n: int)
      modifies this`outcomes
      ensures n == Head(old(outcomes), limit) && outcomes == Tail(old(outcomes))
    {
      if outcomes == [] { return 0; }
      n := if outcomes[0] > limit then limit else outcomes[0];
      outcomes := outcomes[1..];
    }

    method SetPending(id: Id, n: nat)
      requires Sound(t, g, None) && id in t.sessions
      modifies this`t
      ensures Sound(t, g, None) && t == WithPending(old(t), id, n) && TouchedBy(old(t), g, t, g, id)
    {
      hide Sound, TouchedBy;
      PendingSet(t, g, id, n);
      TouchedObject(t, g, t.sessions[id].(pending := n), id);
      t := WithPending(t, id, n);
    }

    /** `session_set_state` to one of the states before CLOSING. */
    method Move(id: Id, desired: int) returns (ok: bool)
      requires Sound(t, g, None) && id in t.sessions && IDLE <= desired < CLOSING
      modifies this`t
      ensures Sound(t, g, None) && TouchedBy(old(t), g, t, g, id)
      ensures ok <==> old(t).sessions[id].state < CLOSING
      ensures t == if ok then WithState(old(t), id, desired) else old(t)
    {
      hide Sound, TouchedBy;
      ghost var t0 := t;
      ok := SetState(id, desired, None);
      if ok { TouchedObject(t0, g, t0.sessions[id].(state := desired), id); } else { TouchedSelf(t, g, id); }
    }

    /** `reactor_modify_fd`, closing the session when the reactor refuses. */
    method ModifyOrClose(id: Id) returns (ok: bool)
      requires Sound(t, g, None) && id in t.sessions
      modifies this`t, this`g, this`outcomes
      ensures Sound(t, g, None) && TouchedBy(old(t), old(g), t, g, id) && id in t.sessions
      ensures ok <==> old(t).sessions[id].fdOut in old(t).handlers && Head(old(outcomes), 0) >= 0
      ensures ok ==> t == old(t) && g == old(g)
      ensures !ok ==> t.sessions[id].state >= CLOSING
      ensures outcomes == if old(t).sessions[id].fdOut in old(t).handlers then Tail(old(outcomes)) else old(outcomes)
    {
      hide Sound, TouchedBy, ClosedBy;
      TouchedSelf(t, g, id);
      if t.sessions[id].fdOut in t.handlers {
        var n := Answer(0);
        if n >= 0 { return true; }
      }
      Close(id);
      ok := false;
    }

    /** `atpd_session_drain_pipe`; `sent` bytes reach the output. */
    method DrainPipe(id: Id) returns (r: int, sent: nat)
      requires Sound(t, g, None) && id in t.sessions
      modifies this`t, this`g, this`outcomes
      ensures Sound(t, g, None) && TouchedBy(old(t), old(g), t, g, id) && -1 <= r <= 1
      ensures id in t.sessions && Flows(old(t).sessions[id], t.sessions[id])
      ensures var s, s' := old(t).sessions[id], t.sessions[id];
              if s.pending == 0 || s.state != PIPE_DIRTY
              then r == 0 && sent == 0 && t == old(t) && g == old(g) && outcomes == old(outcomes)
              else
                var d := Drains(old(outcomes), s.pending);
                && sent == d.sent
                && (d.stop.Blocked? ==>
                      r == 1 && outcomes == d.rest && s' == s.(pending := s.pending - sent) && s'.pending > 0)
                && (d.stop.Broken? ==> r == -1 && outcomes == d.rest && t == old(t) && g == old(g))
                && (d.stop in {AllSent, AtEnd} ==>
                      && (r == 0 <==> s.fdOut in old(t).handlers && Head(d.rest, 0) >= 0)
                      && (r == 0 ==> s' == s.(state := ACTIVE, pending := 0) && outcomes == Tail(d.rest))
                      && (r != 0 ==> r == -1 && s'.state >= CLOSING))
    {
      hide Sound, TouchedBy, Drains;
      ghost var t0, g0 := t, g;
      TouchedSelf(t, g, id);
      sent := 0;
      var pending := t.sessions[id].pending;
      if pending == 0 || t.sessions[id].state != PIPE_DIRTY { return 0, 0; }
      DrainBounds(outcomes, pending);
      var _ := Move(id, DRAINING);
      ghost var t1 := t;
      var stop;
      sent, stop := DrainLoop(pending);
      if stop.Blocked? {
        SetPending(id, pending - sent);
        ghost var t2 := t;
        TouchedTrans(t0, g, t1, g, t2, g, id);
        var _ := Move(id, PIPE_DIRTY);
        TouchedTrans(t0, g, t2, g, t, g, id);
        r := 1;
      } else if stop.Broken? {
        var _ := Move(id, PIPE_DIRTY);
        TouchedTrans(t0, g, t1, g, t, g, id);
        assert t.sessions == t0.sessions;
        r := -1;
      } else {
        var ok := Reactivate(id);
        TouchedTrans(t0, g0, t1, g0, t, g, id);
        r := if ok then 0 else -1;
      }
    }

    /** An emptied pipe: ACTIVE again, unless the reactor refuses. */
    method Reactivate(id: Id) returns (ok: bool)
      requires Sound(t, g, None) && id in t.sessions && t.sessions[id].state < CLOSING
      modifies this`t, this`g, this`outcomes
      ensures Sound(t, g, None) && TouchedBy(old(t), old(g), t, g, id) && id in t.sessions
      ensures ok <==> old(t).sessions[id].fdOut in old(t).handlers && Head(old(outcomes), 0) >= 0
      ensures ok ==> t.sessions[id] == old(t).sessions[id].(state := ACTIVE, pending := 0)
                     && outcomes == Tail(old(outcomes))
      ensures !ok ==> t.sessions[id].state >= CLOSING
    {
      hide Sound, TouchedBy;
      ghost var t0, g0 := t, g;
      SetPending(id, 0);
      ghost var t1 := t;
      var _ := Move(id, ACTIVE);
      ghost var t2 := t;
      TouchedTrans(t0, g, t1, g, t2, g, id);
      ok := ModifyOrClose(id);
      TouchedTrans(t0, g0, t2, g0, t, g, id);
    }

    /** The loop of `atpd_session_drain_pipe`. */
    method DrainLoop(pending: nat) returns (sent: nat, stop: Stop)
      modifies this`outcomes
      ensures Loop(sent, stop, outcomes) == Drains(old(outcomes), pending)
    {
      sent := 0;
      while sent < pending
        invariant 0 <= sent <= pending
        invariant var d := Drains(outcomes, pending - sent); Drains(old(outcomes), pending) == d.(sent := d.sent + sent)
        decreases |outcomes|, pending - sent
      {
        var n := Answer(pending - sent);
        if n == EAGAIN {
          return sent, Blocked;
        } else if n == EINTR {
        } else if n < 0 {
          return sent, Broken;
        } else if n == 0 {
          return sent, AtEnd;
        } else {
          sent := sent + n;
        }
      }
      stop := AllSent;
    }

    /** The VPN went away during a transfer: close, and give up what is in the pipe. */
    method Abandon(id: Id)
      requires Sound(t, g, None) && id in t.sessions
      modifies this`t, this`g
      ensures Sound(t, g, None) && TouchedBy(old(t), old(g), t, g, id)
      ensures id in t.sessions && t.sessions[id].state >= CLOSING && t.sessions[id].drained && !t.sessions[id].pipeOpen
      ensures !old(t).sessions[id].drained ==> t.sessions[id].pending == 0
    {
      hide Sound, TouchedBy, DrainedBy, BodiesKept, Without;
      ghost var t0, g0 := t, g;
      Close(id);
      ghost var t1, g1 := t, g;
      TouchedFacts(t0, g0, t, g, id);
      TouchedSelf(t, g, id);
      EmergencyDrain(id);
      if !t1.sessions[id].drained {
        TouchedPipe(t1, g1, id);
      } else {
        Live(t, g, None, id);
        DrainedPipe(t, g, id);
      }
      TouchedTrans(t0, g0, t1, g1, t, g, id);
    }

    /** The inner loop of the pump on `toSend` bytes: unless all are sent, the pump ends and returns `r`. */
    method SendMoved(id: Id, toSend: nat, total: nat) returns (done: bool, r: int, sent: nat)
      requires Sound(t, g, None) && id in t.sessions && toSend > 0 && t.sessions[id].state < CLOSING
      modifies this`t, this`g, this`outcomes
      ensures Sound(t, g, None) && TouchedBy(old(t), old(g), t, g, id) && id in t.sessions
      ensures var w := Sends(old(outcomes), toSend);
              && sent == w.sent && (done <==> !w.stop.AllSent?)
              && (!done ==> t == old(t) && g == old(g) && outcomes == w.rest)
              && (done ==> Settles(old(t).sessions[id], Ends(w, toSend, total), r, t.sessions[id], outcomes))
    {
      hide Sound, TouchedBy, Sends, Ends, Settles;
      ghost var t0 := t;
      TouchedSelf(t, g, id);
      ClosingFacts(t, g, id);
      SendBounds(outcomes, toSend);
      ghost var w := Sends(outcomes, toSend);
      var stop;
      sent, stop := SendLoop(toSend);
      match stop {
        case AllSent =>
          done, r := false, 0;
        case NotReady =>
          Abandon(id);
          done, r := true, if total > 0 then total else SPLICE_VPN_NOT_READY;
          EndsAbandoned(t0.sessions[id], w, toSend, total, t.sessions[id]);
        case Broken =>
          done, r := true, SPLICE_ERROR;
          EndsQuiet(t0.sessions[id], w, toSend, total);
        case AtEnd =>
          done, r := true, if total + sent > 0 then total + sent else SPLICE_EOF;
          EndsQuiet(t0.sessions[id], w, toSend, total);
        case _ =>
          r := Stall(id, toSend - sent, total + sent, stop.Blocked?);
          done := true;
          EndsStalled(t0.sessions[id], w, toSend, total, r, t.sessions[id], outcomes);
      }
    }

    /** The inner loop of `atpd_session_splice_pump`: a look at the VPN before each write. */
    method SendLoop(toSend: nat) returns (sent: nat, stop: Stop)
      modifies this`outcomes
      ensures Loop(sent, stop, outcomes) == Sends(old(outcomes), toSend)
    {
      sent := 0;
      while sent < toSend
        invariant 0 <= sent <= toSend
        invariant var w := Sends(outcomes, toSend - sent); Sends(old(outcomes), toSend) == w.(sent := w.sent + sent)
        decreases |outcomes|, toSend - sent
      {
        var ready := Answer(1);
        if ready <= 0 { return sent, NotReady; }
        var n := Answer(toSend - sent);
        if n == EAGAIN {
          return sent, Blocked;
        } else if n == EINTR {
        } else if n == EPIPE || n == ECONNRESET {
          return sent, HungUp;
        } else if n < 0 {
          return sent, Broken;
        } else if n == 0 {
          return sent, AtEnd;
        } else {
          sent := sent + n;
        }
      }
      stop := AllSent;
    }

    /** The pipe cannot be emptied now: what is left is pending, and the session dirty. */
    method Stall(id: Id, left: nat, forwarded: nat, wait: bool) returns (r: int)
      requires Sound(t, g, None) && id in t.sessions && left > 0 && t.sessions[id].state < CLOSING
      modifies this`t, this`g, this`outcomes
      ensures Sound(t, g, None) && TouchedBy(old(t), old(g), t, g, id) && id in t.sessions
      ensures StallsTo(old(t).sessions[id], left, forwarded, wait, r, t.sessions[id], old(outcomes), outcomes)
    {
      hide Sound, TouchedBy;
      ghost var t0, g0 := t, g;
      SetPending(id, left);
      ghost var t1 := t;
      var ok := Move(id, PIPE_DIRTY);
      ghost var t2 := t;
      TouchedTrans(t0, g0, t1, g0, t2, g0, id);
      if !ok { return SPLICE_ERROR; }
      if wait {
        ok := ModifyOrClose(id);
        TouchedTrans(t0, g0, t2, g0, t, g, id);
        r := if ok then forwarded else SPLICE_ERROR;
      } else {
        r := if forwarded > 0 then forwarded else SPLICE_EOF;
      }
    }

    /** `atpd_session_splice_pump`; `sent` bytes reach the output. */
    method Pump(id: Id, maxLen: nat) returns (r: int, sent: nat)
      requires Sound(t, g, None) && id in t.sessions
      modifies this`t, this`g, this`outcomes
      ensures Sound(t, g, None) && TouchedBy(old(t), old(g), t, g, id) && id in t.sessions
      ensures Head(old(outcomes), 1) <= 0 ==>
                r == SPLICE_VPN_NOT_READY && sent == 0 && t == old(t) && g == old(g) && outcomes == Tail(old(outcomes))
      ensures Head(old(outcomes), 1) > 0 && old(t).sessions[id].state >= CLOSING ==>
                r == SPLICE_ERROR && sent == 0 && t == old(t) && g == old(g)
      ensures Head(old(outcomes), 1) > 0 && old(t).sessions[id].state < CLOSING ==>
                var p := Pumps(Tail(old(outcomes)), maxLen, 0);
                sent == p.sent && Settles(old(t).sessions[id], p, r, t.sessions[id], outcomes)
    {
      hide Sound, TouchedBy, Settles, Sends, Pumps, Ends;
      ghost var t0, g0 := t, g;
      TouchedSelf(t, g, id);
      sent := 0;
      var ready := Answer(1);
      if ready <= 0 { return SPLICE_VPN_NOT_READY, 0; }
      if t.sessions[id].state >= CLOSING { return SPLICE_ERROR, 0; }
      ghost var script := outcomes;
      var total := 0;
      ghost var whole := Pumps(script, maxLen, 0);
      while total < maxLen
        invariant 0 <= total == sent <= maxLen && t == t0 && g == g0
        invariant Continues(whole, Pumps(outcomes, maxLen, total), total)
        decreases |outcomes|, maxLen - total
      {
        ghost var part := Pumps(outcomes, maxLen, total);
        PumpTurn(outcomes, maxLen, total);
        if part.end.Quiet? { SettlesQuiet(t.sessions[id], whole, part, total); }
        var moved := Answer(maxLen - total);
        if moved == EAGAIN {
          return if total > 0 then total else SPLICE_OK, total;
        } else if moved == EINTR {
        } else if moved == EPIPE || moved == ECONNRESET || moved == 0 {
          return if total > 0 then total else SPLICE_EOF, total;
        } else if moved < 0 {
          return if moved == EINVAL then SPLICE_NOTSUP else SPLICE_ERROR, total;
        } else {
          SendBounds(outcomes, moved);
          var done, ret, n := SendMoved(id, moved, total);
          sent := sent + n;
          if done {
            SettlesWhole(t0.sessions[id], whole, part, total, ret, t.sessions[id], outcomes);
            return ret, sent;
          }
          total := total + moved;
        }
      }
      PumpTurn(outcomes, maxLen, total);
      SettlesQuiet(t.sessions[id], whole, Pumps(outcomes, maxLen, total), total);
      return if total > 0 then total else SPLICE_OK, total;
    }

    /** What `session_in_cb` does between taking and dropping its reference. */
    method InBody(id: Id, failed: bool) returns (sent: nat)
      requires Sound(t, g, None) && id in t.sessions
      modifies this`t, this`g, this`outcomes
      ensures Sound(t, g, None) && TouchedBy(old(t), old(g), t, g, id) && id in t.sessions
      ensures old(t).sessions[id].state >= CLOSING ==>
                t == old(t) && g == old(g) && outcomes == old(outcomes) && sent == 0
      ensures old(t).sessions[id].state < CLOSING && failed ==>
                t.sessions[id].state >= CLOSING && outcomes == old(outcomes) && sent == 0
      ensures old(t).sessions[id].state < CLOSING && !failed ==>
                InEffect(old(t).sessions[id], old(outcomes), t.sessions[id], outcomes, sent)
    {
      hide Sound, TouchedBy, ClosedBy, Pumps, Drains;
      ghost var t0, g0 := t, g;
      TouchedSelf(t, g, id);
      sent := 0;
      if t.sessions[id].state >= CLOSING { return; }
      if failed { Close(id); return; }
      if t.sessions[id].state == PIPE_DIRTY {
        var _, n := DrainPipe(id);
        sent := n;
        TouchedFacts(t0, g0, t, g, id);
        if t.sessions[id].state == PIPE_DIRTY { return; }
      }
      ghost var t1, g1 := t, g;
      var ret, n := Pump(id, PIPE_SIZE);
      sent := sent + n;
      ghost var t2, g2 := t, g;
      TouchedTrans(t0, g0, t1, g1, t2, g2, id);
      if ret < 0 {
        Close(id);
        TouchedTrans(t0, g0, t2, g2, t, g, id);
      }
    }

    /** What `session_out_cb` does between taking and dropping its reference. */
    method OutBody(id: Id, failed: bool) returns (sent: nat)
      requires Sound(t, g, None) && id in t.sessions
      modifies this`t, this`g, this`outcomes
      ensures Sound(t, g, None) && TouchedBy(old(t), old(g), t, g, id) && id in t.sessions
      ensures old(t).sessions[id].state >= CLOSING ==>
                t == old(t) && g == old(g) && outcomes == old(outcomes) && sent == 0
      ensures old(t).sessions[id].state < CLOSING && failed ==>
                t.sessions[id].state >= CLOSING && outcomes == old(outcomes) && sent == 0
      ensures old(t).sessions[id].state < CLOSING && !failed ==>
                OutEffect(old(t).sessions[id], old(outcomes), t.sessions[id], outcomes, sent)
    {
      hide Sound, TouchedBy, ClosedBy, Drains;
      ghost var t0, g0 := t, g;
      TouchedSelf(t, g, id);
      sent := 0;
      if t.sessions[id].state >= CLOSING { return; }
      if failed { Close(id); return; }
      if t.sessions[id].state == PIPE_DIRTY {
        var ret;
        ret, sent := DrainPipe(id);
        TouchedFacts(t0, g0, t, g, id);
        if ret < 0 {
          ghost var t1, g1 := t, g;
          Close(id);
          TouchedTrans(t0, g0, t1, g1, t, g, id);
        }
      }
    }

    /**
     `session_in_cb` and `session_out_cb`: a transfer as the kernel's answers say, an error that closes, or nothing on a
     closing session; whatever happens, the session outlives its callback.
     */
    method SessionCallback(id: Id, input: bool, failed: bool) returns (sent: nat)
      requires Sound(t, g, None) && id in t.sessions && (id in t.registry || id in t.gc)
      modifies this`t, this`g, this`outcomes
      ensures Sound(t, g, None) && TouchedBy(old(t), old(g), t, g, id) && id in t.sessions
      ensures CallbackEffect(old(t).sessions[id], old(outcomes), input, failed, t.sessions[id], outcomes, sent)
    {
      hide Sound, TouchedBy, InEffect, OutEffect;
      ghost var t0, g0, script := t, g, outcomes;
      Get(id, None);
      ghost var t1, g1 := t, g;
      if input { sent := InBody(id, failed); } else { sent := OutBody(id, failed); }
      ghost var t2, g2 := t, g;
      TouchedFacts(t1, g1, t2, g2, id);
      Put(id, None);
      CallbackDone(t0, g0, t0.sessions[id].refs + 1, t2, g2, t2.sessions[id].refs - 1, id);
      EffectIgnoresRefs(t0.sessions[id], script, t2.sessions[id], outcomes, sent,
                        t1.sessions[id].refs, t.sessions[id].refs);
    }

    /** The reactor calls the handler of a descriptor, if there is one; `sent` bytes reach the output of its owner. */
    method Dispatch(fd: int, failed: bool) returns (sent: nat)
      requires Valid()
      modifies this`t, this`g, this`outcomes
      ensures Valid() && Advances(old(t), t) && g.freed == old(g).freed
      ensures DispatchEffect(old(t), old(outcomes), fd, failed, t, outcomes, sent)
    {
      hide Sound, TouchedBy, Settled, Advances, CallbackEffect, BodiesKept;
      ghost var t0, g0 := t, g;
      AdvancesSelf(t);
      sent := 0;
      if fd < 0 || fd >= MAX_FD || fd !in t.handlers { return; }
      var h := t.handlers[fd];
      if h.callback.OtherCallback? || h.owner.None? { return; }
      SettledAt(t.handlers, fd);
      SlotOwner(t, g, fd);
      sent := SessionCallback(h.owner.value, h.callback.InCallback?, failed);
      TouchedFacts(t0, g0, t, g, h.owner.value);
      TouchedAdvances(t0, g0, t, g, h.owner.value);
      SettledShrinks(t0.handlers, t.handlers);
    }

    /**
     `atpd_vpn_state_transition`: every change of state or identity is counted and told to the mode callback once, and
     the sessions are drained on each edge into TEARDOWN, and only then.
     */
    method VpnTransition(state: int, ifId: int, iface: string, memory: bool) returns (r: int)
      requires Valid()
      modifies this`t, this`g, this`vpn, this`modeCalls
      ensures Valid() && Advances(old(t), t) && g.freed == old(g).freed
      ensures r == if VPN_IDLE <= state <= VPN_TEARDOWN then 0 else -1
      ensures var changed := r == 0 && (old(vpn).state, old(vpn).ifId, old(vpn).iface) != (state, ifId, Cut(iface));
              && vpn == (if changed then Vpn(state, ifId, Cut(iface), old(vpn).transitions + 1) else old(vpn))
              && modeCalls == old(modeCalls) + if changed then [ModeCall(state, Cut(iface))] else []
      ensures r != 0 || state != VPN_TEARDOWN || old(vpn).state == VPN_TEARDOWN ==> t == old(t) && g == old(g)
      ensures r == 0 && state == VPN_TEARDOWN && old(vpn).state != VPN_TEARDOWN && memory ==>
                && t.registry == [] && t.gc == old(t).gc + old(t).registry
                && t.handlers == old(t).handlers - Fds(old(t).sessions, old(t).registry)
                && DrainingBodies(old(t), old(t).registry, t)
                && g.pipeCloses == old(g).pipeCloses + multiset(old(t).registry)
    {
      hide Sound, Advances, DrainingBodies, Fds, Settled;
      AdvancesSelf(t);
      if state < VPN_IDLE || state > VPN_TEARDOWN { return -1; }
      r := 0;
      var was := vpn;
      if was.state == state && was.ifId == ifId && was.iface == Cut(iface) { return; }
      vpn := Vpn(state, ifId, Cut(iface), was.transitions + 1);
      modeCalls := modeCalls + [ModeCall(state, Cut(iface))];
      if was.state != VPN_TEARDOWN && state == VPN_TEARDOWN { StopSessions(memory); }
    }

    /** `emergency_drain_all` between events. */
    method StopSessions(memory: bool)
      requires Valid()
      modifies this`t, this`g
      ensures Valid() && Advances(old(t), t) && g.freed == old(g).freed
      ensures !memory && old(t).registry != [] ==> t == old(t) && g == old(g)
      ensures memory || old(t).registry == [] ==>
                && t.registry == [] && t.gc == old(t).gc + old(t).registry
                && t.handlers == old(t).handlers - Fds(old(t).sessions, old(t).registry)
                && DrainingBodies(old(t), old(t).registry, t)
                && g.pipeCloses == old(g).pipeCloses + multiset(old(t).registry)
    {
      hide Sound, Advances, DrainingBodies, Fds, Settled;
      ghost var t0, g0 := t, g;
      AdvancesSelf(t);
      DrainAll(memory);
      if memory || t0.registry == [] {
        DrainAdvances(t0, g0, t);
        SettledShrinks(t0.handlers, t.handlers);
      }
    }

    /** `reactor_cleanup_internal`: every free callback that was still waiting runs. */
    method ReactorDestroy()
      requires Valid()
      modifies this`t, this`g
      ensures Valid() && BodiesKept(old(t), t, None) && SameHolds(old(g), g)
      ensures t.handlers == map[] && t.registry == old(t).registry && t.gc == old(t).gc
      ensures forall r :: r in g.places ==> g.freeRuns[r] == 1
    {
      hide Sound, BodiesKept, Settled;
      ghost var t0, g0 := t, g;
      KeptSelf(t);
      InRange(t, g, None);
      var i := 0;
      while i < MAX_FD
        invariant 0 <= i <= MAX_FD && Sound(t, g, None) && BodiesKept(t0, t, None) && SameHolds(g0, g)
        invariant t.registry == t0.registry && t.gc == t0.gc
        invariant forall fd :: fd in t.handlers ==> i <= fd < MAX_FD
      {
        ghost var t1 := t;
        RemoveFd(i, None);
        KeptTrans(t0, t1, t, None);
        i := i + 1;
      }
      assert forall fd :: fd !in t.handlers;
      SettledNone();
      AllFreed(t, g);
    }

    method Collect()
      requires Valid()
      modifies this`t, this`g
      ensures Valid() && Advances(old(t), t) && t == old(t).(sessions := t.sessions, gc := [])
      ensures CollectedBodies(old(t), old(g), old(t).gc, t, g)
    {
      hide Sound, Advances, CollectedBodies, Settled;
      ghost var t0, g0 := t, g;
      IdsAreOld(t, g);
      GcProcess();
      CollectAdvances(t0, g0, t, g);
    }

    /**
     The end of the daemon: if the creators have let go, every session ever created has been freed once and its
     pipe closed once, and every free callback ever registered has run once.
     */
    method Shutdown(memory: bool)
      requires Valid()
      modifies this`t, this`g
      ensures Valid() && t.handlers == map[]
      ensures forall r :: r in g.places ==> g.freeRuns[r] == 1
      ensures memory && callers == {} ==>
                t.sessions == map[] && (forall id: Id :: id < t.nextId ==> g.freed[id] == 1 && g.pipeCloses[id] == 1)
    {
      hide Sound, Advances, DrainingBodies, CollectedBodies, Fds, Settled, BodiesKept;
      StopSessions(memory);
      Collect();
      ReactorDestroy();
      if memory && callers == {} {
        NoLeak(t, g);
        AllGone(t, g);
      }
    }

    /** One event; an event that nothing could cause is ignored. */
    method Handle(e: Event)
      requires Valid()
      modifies this
      ensures Valid() && Advances(old(t), t) && Handled(e, old(Seen()), Seen())
    {
      hide Sound, Advances, Settled, BodiesKept, Fds, DrainingBodies, CollectedBodies, ClosedBy, TouchedBy;
      hide DispatchEffect;
      ghost var t0 := t;
      AdvancesSelf(t);
      if e.Open? || e.Enlist? || e.LetGo? || e.Destroy? {
        HandleCreator(e);
      } else if e.Ready? {
        var sent := Dispatch(e.fd, e.failed);
        assert DispatchEffect(t0, old(outcomes), e.fd, e.failed, t, outcomes, sent);
      } else if e.Idle? {
        Collect();
      } else if e.Stop? {
        StopSessions(e.memory);
      } else if e.VpnChange? {
        var _ := VpnTransition(e.state, e.ifId, e.iface, e.memory);
      } else {
        HandleOther(e);
      }
    }

    /** What the creator of a session does. */
    method HandleCreator(e: Event)
      requires Valid() && (e.Open? || e.Enlist? || e.LetGo? || e.Destroy?)
      modifies this
      ensures Valid() && Advances(old(t), t) && Handled(e, old(Seen()), Seen())
    {
      hide Sound, Advances, Settled, BodiesKept, Fds, DrainingBodies, CollectedBodies, ClosedBy, TouchedBy;
      hide DispatchEffect;
      ghost var t0, g0 := t, g;
      AdvancesSelf(t);
      IdsAreOld(t, g);
      if e.Open? {
        var r := Create(e.fdIn, e.fdOut, e.ok);
        if e.ok { CreateAdvances(t0, e.fdIn, e.fdOut); }
      } else if e.id in callers {
        Live(t, g, None, e.id);
        if e.Enlist? {
          if t.sessions[e.id].state == IDLE {
            var _ := Register(e.id, e.okIn, e.okOut);
            RegisterAdvances(t0, t, e.id);
            SettledRegister(t0.handlers, t.handlers);
          }
        } else if e.LetGo? {
          CreatorPut(e.id);
          PutAdvances(t0, t, e.id);
        } else {
          Close(e.id);
          TouchedFacts(t0, g0, t, g, e.id);
          TouchedAdvances(t0, g0, t, g, e.id);
          SettledShrinks(t0.handlers, t.handlers);
        }
      }
    }

    /** Descriptors that belong to other parts of the daemon. */
    method HandleOther(e: Event)
      requires Valid() && (e.AddOther? || e.RemoveOther?)
      modifies this
      ensures Valid() && Advances(old(t), t) && Handled(e, old(Seen()), Seen())
    {
      hide Sound, Advances, Settled, BodiesKept, Fds, DrainingBodies, CollectedBodies, ClosedBy, TouchedBy;
      hide DispatchEffect;
      ghost var t0 := t;
      if e.RemoveOther? {
        RemoveFd(e.fd, None);
        KeptAdvances(t0, t);
        SettledShrinks(t0.handlers, t.handlers);
      } else {
        var added: bool;
        if e.withFree {
          added := AddFdEx(e.fd, OtherCallback, None, e.ok);
        } else {
          added := AddFd(e.fd, OtherCallback, None, e.ok);
        }
        KeptAdvances(t0, t);
        SettledRegister(t0.handlers, t.handlers);
      }
    }

    /**
     Any run: every event does what it should, after every event the counts are exact, and nothing that was closed
     has been reopened.
     */
    method Run(events: seq<Event>) returns (ghost path: seq<View>)
      requires Valid()
      modifies this
      ensures Valid() && Advances(old(t), t)
      ensures |path| == |events| + 1 && path[0] == old(Seen()) && path[|events|] == Seen()
      ensures forall i :: 0 <= i < |events| ==> Handled(events[i], path[i], path[i + 1])
      ensures forall i :: 0 <= i <= |events| ==> Sound(path[i].t, path[i].g, None)
    {
      hide Sound, Advances, Settled, Handled;
      ghost var t0 := t;
      AdvancesSelf(t);
      IdsAreOld(t, g);
      path := [Seen()];
      for i := 0 to |events|
        invariant Valid() && Advances(t0, t)
        invariant |path| == i + 1 && path[0] == old(Seen()) && path[i] == Seen()
        invariant forall j :: 0 <= j < i ==> Handled(events[j], path[j], path[j + 1])
        invariant forall j :: 0 <= j <= i ==> Sound(path[j].t, path[j].g, None)
      {
        ghost var t1 := t;
        Handle(events[i]);
        AdvancesTrans(t0, t1, t);
        path := path + [Seen()];
      }
    }
  }
}
