/** What the loops over many sessions have achieved so far, and what no operation ever undoes. */
module SessionRuns {
  import opened Options
  import opened SessionTables

  lemma AdvancesTrans(t: Tables, t1: Tables, t2: Tables)
    requires Advances(t, t1) && Advances(t1, t2) && OldIds(t)
    ensures Advances(t, t2)
  {
  }

  ghost predicate OldIds(t: Tables)
  {
    forall id :: id in t.sessions ==> id < t.nextId
  }

  lemma IdsAreOld(t: Tables, g: Ledger)
    requires Sound(t, g, None)
    ensures OldIds(t)
  {
    assert forall id :: id in t.sessions ==> SessionSound(t, g, None, id);
  }

  // Garbage collection.

  /** `isDone` sessions have lost the queue's reference, and died of it if it was their last. */
  ghost predicate CollectedAt(t: Tables, g: Ledger, isDone: bool, t': Tables, g': Ledger, id: Id)
    requires id in t.sessions
  {
    var s := t.sessions[id];
    && (id in t'.sessions <==> s.refs > 1 || !isDone)
    && (id in t'.sessions ==> s.refs > 0 && t'.sessions[id] == if isDone then s.(refs := s.refs - 1) else s)
    && g'.freed[id] == g.freed[id] + if id in t'.sessions then 0 else 1
  }

  ghost predicate CollectedBodies(t: Tables, g: Ledger, done: seq<Id>, t': Tables, g': Ledger)
  {
    && (forall id :: id in t'.sessions ==> id in t.sessions)
    && (forall id :: id in t.sessions ==> CollectedAt(t, g, id in done, t', g', id))
  }

  /** The first `i` entries of the queue are done. */
  ghost predicate Collected(t: Tables, g: Ledger, i: nat, t': Tables, g': Ledger)
  {
    && i <= |t.gc| && t' == t.(sessions := t'.sessions, gc := [])
    && g' == g.(hand := g'.hand, freed := g'.freed, pipeCloses := g'.pipeCloses)
    && g'.hand == g.hand + multiset(t.gc[i..])
    && CollectedBodies(t, g, t.gc[..i], t', g')
  }

  lemma CollectStart(t: Tables, g: Ledger)
    requires Sound(t, g, None)
    ensures Collected(t, g, 0, t.(gc := []), g.(hand := g.hand + multiset(t.gc)))
  {
    assert t.gc[0..] == t.gc;
    assert forall id :: id in t.sessions ==> SessionSound(t, g, None, id);
  }

  /** What `Put` of `id` does. */
  ghost predicate PutBy(t: Tables, g: Ledger, t': Tables, g': Ledger, id: Id)
  {
    && id in t.sessions && t.sessions[id].refs > 0
    && if t.sessions[id].refs > 1
       then t' == WithRefs(t, id, t.sessions[id].refs - 1) && g' == g.(hand := g.hand - multiset{id})
       else t' == t.(sessions := t.sessions - {id}) && g' == Freed(g, id, t.sessions[id].pipeOpen)
  }

  lemma Next(s: seq<Id>, i: nat)
    requires NoDuplicates(s) && i < |s|
    ensures s[..i + 1] == s[..i] + [s[i]] && s[i] !in s[..i] && s[..i + 1][..i] == s[..i]
    ensures s[i..] == [s[i]] + s[i + 1..] && multiset(s[i..]) == multiset{s[i]} + multiset(s[i + 1..])
    ensures forall k :: k in s[i..] <==> k == s[i] || k in s[i + 1..]
  {
    assert s[i..] == [s[i]] + s[i + 1..];
  }

  lemma CollectStep(t: Tables, g: Ledger, i: nat, t1: Tables, g1: Ledger, t2: Tables, g2: Ledger)
    requires Collected(t, g, i, t1, g1) && i < |t.gc| && NoDuplicates(t.gc) && PutBy(t1, g1, t2, g2, t.gc[i])
    ensures Collected(t, g, i + 1, t2, g2)
  {
    Next(t.gc, i);
    hide NoDuplicates;
    CollectBody(t, g, t.gc[..i], t1, g1, t2, g2, t.gc[i]);
    hide CollectedBodies;
    assert g2.hand == g.hand + multiset(t.gc[i + 1..]);
  }

  lemma CollectNext(t: Tables, g: Ledger, i: nat, t1: Tables, g1: Ledger)
    requires Collected(t, g, i, t1, g1) && i < |t.gc|
    ensures g1.hand[t.gc[i]] > 0
  {
    assert t.gc[i] in t.gc[i..];
  }

  lemma CollectEnd(t: Tables, g: Ledger, t': Tables, g': Ledger)
    requires Collected(t, g, |t.gc|, t', g')
    ensures t' == t.(sessions := t'.sessions, gc := []) && g'.hand == g.hand && g'.creators == g.creators
    ensures CollectedBodies(t, g, t.gc, t', g')
  {
    assert t.gc[..|t.gc|] == t.gc;
  }

  lemma PutIs(t: Tables, g: Ledger, t': Tables, g': Ledger, id: Id)
    requires id in t.sessions && t.sessions[id].refs > 0
    requires if t.sessions[id].refs > 1
             then t' == WithRefs(t, id, t.sessions[id].refs - 1) && g' == g.(hand := g.hand - multiset{id})
             else t' == t.(sessions := t.sessions - {id}) && g' == Freed(g, id, t.sessions[id].pipeOpen)
    ensures PutBy(t, g, t', g', id)
  {
  }

  lemma Registered(t: Tables, g: Ledger, id: Id)
    requires Sound(t, g, None) && id in t.registry
    ensures id in t.sessions
  {
  }

  lemma Distinct(t: Tables, g: Ledger)
    requires Sound(t, g, None)
    ensures NoDuplicates(t.registry)
  {
  }

  lemma CollectBody(t: Tables, g: Ledger, done: seq<Id>, t1: Tables, g1: Ledger, t2: Tables, g2: Ledger, id: Id)
    requires CollectedBodies(t, g, done, t1, g1) && PutBy(t1, g1, t2, g2, id) && id !in done
    ensures CollectedBodies(t, g, done + [id], t2, g2)
  {
    forall k | k in t.sessions
      ensures CollectedAt(t, g, k in done + [id], t2, g2, k)
    {
      assert CollectedAt(t, g, k in done, t1, g1, k);
    }
    assert forall k :: k in t2.sessions ==> k in t1.sessions;
  }

  // The emergency drain.

  function PipeClosed(t: Tables, id: Id): (r: Tables)
    requires id in t.sessions
  {
    t.(sessions := t.sessions[id := t.sessions[id].(drained := true, pipeOpen := false, pending := 0)])
  }

  lemma PipeClosedSound(t: Tables, g: Ledger, ex: Option<Id>, id: Id)
    requires Sound(t, g, ex) && id in t.sessions && !t.sessions[id].drained
    requires ex == Some(id) || t.sessions[id].state >= CLOSING
    ensures Sound(PipeClosed(t, id), g.(pipeCloses := g.pipeCloses + multiset{id}), ex)
  {
    var t', g' := PipeClosed(t, id), g.(pipeCloses := g.pipeCloses + multiset{id});
    assert SessionSound(t, g, ex, id);
    hide Sound;
    assert SessionSound(t', g', ex, id);
    hide SessionSound;
    SessionTouched(t, g, t', g', ex, id);
  }

  /** A session that was open and has been drained. */
  ghost predicate DrainedFrom(s: Session, s': Session)
  {
    s' == s.(state := DESTROY_PENDING, registered := false, gcEnqueued := true,
             drained := true, pipeOpen := false, pending := 0, refs := s'.refs)
  }

  /** `emergency_drain` on an open session. */
  ghost predicate DrainedBy(t: Tables, g: Ledger, t': Tables, g': Ledger, id: Id)
  {
    && id in t.sessions
    && ClosedBy(PipeClosed(t, id), g.(pipeCloses := g.pipeCloses + multiset{id}), t', g', id)
  }

  /** The descriptors of these sessions. */
  function Fds(sessions: map<Id, Session>, ids: seq<Id>): (r: set<int>)
    decreases |ids|
  {
    if ids == [] then {}
    else
      var id := ids[|ids| - 1];
      Fds(sessions, ids[..|ids| - 1]) + if id in sessions then {sessions[id].fdIn, sessions[id].fdOut} else {}
  }

  /** The sessions in `done` have been drained, the others are untouched. */
  ghost predicate DrainingBodies(t: Tables, done: seq<Id>, t': Tables)
  {
    && t'.nextId == t.nextId && t'.sessions.Keys == t.sessions.Keys
    && (forall id :: id in t.sessions && id !in done ==> SameBody(t.sessions[id], t'.sessions[id]))
    && (forall id :: id in t.sessions && id in done ==> DrainedFrom(t.sessions[id], t'.sessions[id]))
  }

  /** The first `i` sessions of the snapshot have been drained, in order. */
  ghost predicate Draining(t: Tables, g: Ledger, i: nat, t': Tables, g': Ledger)
  {
    && i <= |t.registry| && DrainingLedger(g, t.registry, i, g') && DrainingTables(t, i, t')
    && DrainingBodies(t, t.registry[..i], t')
  }

  ghost predicate DrainingLedger(g: Ledger, snapshot: seq<Id>, i: nat, g': Ledger)
    requires i <= |snapshot|
  {
    && g'.creators == g.creators && g'.freed == g.freed
    && g'.hand == g.hand + multiset(snapshot[i..])
    && g'.pipeCloses == g.pipeCloses + multiset(snapshot[..i])
  }

  ghost predicate DrainingTables(t: Tables, i: nat, t': Tables)
    requires i <= |t.registry|
  {
    && t'.gc == t.gc + t.registry[..i]
    && (forall id :: id in t'.registry ==> id in t.registry[i..])
    && t'.handlers == t.handlers - Fds(t.sessions, t.registry[..i])
  }

  lemma DrainStart(t: Tables, g: Ledger, t': Tables, g': Ledger)
    requires BodiesKept(t, t', None) && t' == t.(sessions := t'.sessions)
    requires g' == g.(hand := g.hand + multiset(t.registry))
    ensures Draining(t, g, 0, t', g')
  {
    assert t.registry[0..] == t.registry;
    assert Fds(t.sessions, []) == {};
  }

  lemma DrainStep(t: Tables, g: Ledger, i: nat, t1: Tables, g1: Ledger, t2: Tables, g2: Ledger, n: nat)
    requires Draining(t, g, i, t1, g1) && i < |t.registry| && NoDuplicates(t.registry) && NoDuplicates(t1.registry)
    requires t.registry[i] in t.sessions && DrainedBy(t1, g1, t2, g2, t.registry[i])
    ensures t.registry[i] in t2.sessions
    ensures Draining(t, g, i + 1, WithRefs(t2, t.registry[i], n), g2.(hand := g2.hand - multiset{t.registry[i]}))
  {
    var id := t.registry[i];
    Next(t.registry, i);
    hide NoDuplicates, DrainingBodies, DrainingTables, DrainingLedger, DrainedBy, Fds, WithRefs;
    SameFds(t, t.registry[..i], t1, id);
    DrainBody(t, t.registry[..i], t1, g1, t2, g2, id, n);
    DrainedFacts(t1, g1, t2, g2, id);
    DrainTables(t, i, t1, t2);
    TablesIgnoreRefs(t, i + 1, t2, id, n);
    LedgerStep(g, t.registry, i, g1, g2);
  }

  lemma SameFds(t: Tables, done: seq<Id>, t1: Tables, id: Id)
    requires DrainingBodies(t, done, t1) && id in t.sessions && id !in done
    ensures id in t1.sessions && SameBody(t.sessions[id], t1.sessions[id])
  {
  }

  lemma LedgerStep(g: Ledger, snapshot: seq<Id>, i: nat, g1: Ledger, g2: Ledger)
    requires i < |snapshot| && NoDuplicates(snapshot) && DrainingLedger(g, snapshot, i, g1)
    requires g2.hand == g1.hand && g2.creators == g1.creators && g2.freed == g1.freed
    requires g2.pipeCloses == g1.pipeCloses + multiset{snapshot[i]}
    ensures DrainingLedger(g, snapshot, i + 1, g2.(hand := g2.hand - multiset{snapshot[i]}))
  {
    Next(snapshot, i);
  }

  lemma TablesIgnoreRefs(t: Tables, i: nat, t': Tables, id: Id, n: nat)
    requires i <= |t.registry| && DrainingTables(t, i, t') && id in t'.sessions
    ensures DrainingTables(t, i, WithRefs(t', id, n))
  {
  }

  lemma DrainTables(t: Tables, i: nat, t1: Tables, t2: Tables)
    requires i < |t.registry| && DrainingTables(t, i, t1) && NoDuplicates(t.registry) && NoDuplicates(t1.registry)
    requires t.registry[i] in t.sessions
    requires t2.registry == Without(t1.registry, t.registry[i]) && t2.gc == t1.gc + [t.registry[i]]
    requires var s := t.sessions[t.registry[i]]; t2.handlers == t1.handlers - {s.fdIn, s.fdOut}
    ensures DrainingTables(t, i + 1, t2)
  {
    var id := t.registry[i];
    Next(t.registry, i);
    WithoutFacts(t1.registry, id);
    hide Without, NoDuplicates;
    assert t2.handlers == t.handlers - Fds(t.sessions, t.registry[..i + 1]);
  }

  /** What is known of the next session of the snapshot. */
  lemma DrainNext(t: Tables, g: Ledger, i: nat, t1: Tables, g1: Ledger)
    requires Sound(t, g, None) && Draining(t, g, i, t1, g1) && i < |t.registry|
    ensures var id := t.registry[i];
            && id in t.sessions && id in t1.sessions && g1.hand[id] > 0
            && t1.sessions[id].state < CLOSING && !t1.sessions[id].drained
  {
    var id := t.registry[i];
    Live(t, g, None, id);
    hide Sound, SessionSound;
    ClosingFacts(t, g, id);
    NotIn(t, g, i);
    assert id in t.registry[i..];
  }

  lemma NotIn(t: Tables, g: Ledger, i: nat)
    requires Sound(t, g, None) && i < |t.registry|
    ensures NoDuplicates(t.registry) && t.registry[i] !in t.registry[..i]
  {
  }

  lemma FirstIn(s: seq<Id>)
    ensures s == [] || s[0] in s
  {
  }

  /** The end of the drain: the registry is empty and the sessions it held are queued, in registry order. */
  lemma DrainEnd(t: Tables, g: Ledger, t': Tables, g': Ledger)
    requires Draining(t, g, |t.registry|, t', g')
    ensures t'.registry == [] && t'.gc == t.gc + t.registry && t'.handlers == t.handlers - Fds(t.sessions, t.registry)
    ensures g'.hand == g.hand && g'.creators == g.creators && g'.freed == g.freed
    ensures g'.pipeCloses == g.pipeCloses + multiset(t.registry)
    ensures DrainingBodies(t, t.registry, t')
  {
    FirstIn(t'.registry);
    assert t.registry[..|t.registry|] == t.registry;
  }

  lemma DrainHeld(t: Tables, g: Ledger, t': Tables, g': Ledger, id: Id)
    requires DrainedBy(t, g, t', g', id) && g.hand[id] > 0
    ensures g'.hand[id] > 0 && id in t'.gc && id in t'.sessions
  {
  }

  lemma DrainedFacts(t: Tables, g: Ledger, t': Tables, g': Ledger, id: Id)
    requires DrainedBy(t, g, t', g', id)
    ensures t'.registry == Without(t.registry, id) && t'.gc == t.gc + [id] && id in t'.sessions
    ensures t'.handlers == t.handlers - {t.sessions[id].fdIn, t.sessions[id].fdOut}
    ensures g'.hand == g.hand && g'.creators == g.creators && g'.freed == g.freed
    ensures g'.pipeCloses == g.pipeCloses + multiset{id}
  {
  }

  lemma DrainBody(t: Tables, done: seq<Id>, t1: Tables, g1: Ledger, t2: Tables, g2: Ledger, id: Id, n: nat)
    requires DrainingBodies(t, done, t1) && id !in done && DrainedBy(t1, g1, t2, g2, id)
    ensures DrainingBodies(t, done + [id], WithRefs(t2, id, n))
  {
    assert forall k :: k in done + [id] <==> k in done || k == id;
    hide Without;
  }

  lemma FdsOf(sessions: map<Id, Session>, ids: seq<Id>, id: Id)
    requires id in ids && id in sessions
    ensures sessions[id].fdIn in Fds(sessions, ids) && sessions[id].fdOut in Fds(sessions, ids)
  {
    if ids[|ids| - 1] != id { FdsOf(sessions, ids[..|ids| - 1], id); }
  }

  // One session's callbacks.

  /** All that a callback of session `id` can do to the tables and to the references. */
  ghost predicate TouchedBy(t: Tables, g: Ledger, t': Tables, g': Ledger, id: Id)
  {
    && id in t.sessions && id in t'.sessions && BodiesKept(t, t', Some(id)) && HandlersShrink(t.handlers, t'.handlers)
    && t'.sessions[id].fdIn == t.sessions[id].fdIn && t'.sessions[id].fdOut == t.sessions[id].fdOut
    && (t.sessions[id].state >= CLOSING ==> t'.sessions[id].state >= t.sessions[id].state)
    && (id in t.registry || id in t.gc ==> id in t'.registry || id in t'.gc)
    && g'.creators == g.creators && g'.hand == g.hand && g'.freed == g.freed
  }

  /**
   What a transfer makes of an open session: it is as it was, dirty with bytes pending, active again with nothing
   pending, or closing.
   */
  ghost predicate Flows(s: Session, s': Session)
  {
    || s'.state >= CLOSING
    || SameBody(s, s')
    || (s'.state == PIPE_DIRTY && s'.pending > 0)
    || (s.state == PIPE_DIRTY && s'.state == ACTIVE && s'.pending == 0)
  }

  lemma TouchedTrans(t: Tables, g: Ledger, t1: Tables, g1: Ledger, t2: Tables, g2: Ledger, id: Id)
    requires TouchedBy(t, g, t1, g1, id) && TouchedBy(t1, g1, t2, g2, id)
    ensures TouchedBy(t, g, t2, g2, id)
  {
  }

  lemma TouchedSelf(t: Tables, g: Ledger, id: Id)
    requires id in t.sessions
    ensures TouchedBy(t, g, t, g, id)
  {
  }

  /** A change of the session itself. */
  lemma TouchedObject(t: Tables, g: Ledger, s: Session, id: Id)
    requires id in t.sessions && s.fdIn == t.sessions[id].fdIn && s.fdOut == t.sessions[id].fdOut
    requires t.sessions[id].state >= CLOSING ==> s.state >= t.sessions[id].state
    ensures TouchedBy(t, g, t.(sessions := t.sessions[id := s]), g, id)
  {
  }

  lemma TouchedClosed(t: Tables, g: Ledger, t': Tables, g': Ledger, id: Id)
    requires ClosedBy(t, g, t', g', id) && t.sessions[id].state < CLOSING
    ensures TouchedBy(t, g, t', g', id)
  {
    hide Without;
  }

  lemma TouchedAdvances(t: Tables, g: Ledger, t': Tables, g': Ledger, id: Id)
    requires TouchedBy(t, g, t', g', id)
    ensures Advances(t, t')
  {
    forall k | k in t.sessions && k in t'.sessions && t.sessions[k].state >= CLOSING
      ensures t'.sessions[k].state >= t.sessions[k].state
    {
      if k != id { assert SameBody(t.sessions[k], t'.sessions[k]); }
    }
  }

  function WithPending(t: Tables, id: Id, n: nat): (r: Tables)
    requires id in t.sessions
  {
    t.(sessions := t.sessions[id := t.sessions[id].(pending := n)])
  }

  lemma PendingSet(t: Tables, g: Ledger, id: Id, n: nat)
    requires Sound(t, g, None) && id in t.sessions
    ensures Sound(WithPending(t, id, n), g, None)
  {
    assert SessionSound(t, g, None, id);
    hide Sound;
    assert SessionSound(WithPending(t, id, n), g, None, id);
    hide SessionSound;
    SessionTouched(t, g, WithPending(t, id, n), g, None, id);
  }

  /** Between the references that a callback takes on entry and drops on return. */
  lemma CallbackDone(t: Tables, g: Ledger, n: nat, t': Tables, g': Ledger, n': nat, id: Id)
    requires id in t.sessions && TouchedBy(WithRefs(t, id, n), g.(hand := g.hand + multiset{id}), t', g', id)
    ensures TouchedBy(t, g, WithRefs(t', id, n'), g'.(hand := g'.hand - multiset{id}), id)
  {
    var t1, t2 := WithRefs(t, id, n), WithRefs(t', id, n');
    KeptOthers(t, t1, id);
    KeptOthers(t', t2, id);
    hide BodiesKept;
    KeptTrans(t, t1, t', Some(id));
    KeptTrans(t, t', t2, Some(id));
    assert g'.hand - multiset{id} == g.hand;
  }

  /** A session with a slot is open, so that the registry holds it. */
  lemma SlotOwner(t: Tables, g: Ledger, fd: int)
    requires Sound(t, g, None) && fd in t.handlers && t.handlers[fd].holds && t.handlers[fd].owner.Some?
    ensures t.handlers[fd].owner.value in t.sessions && t.handlers[fd].owner.value in t.registry
  {
    assert SlotSound(t, g, None, fd);
    assert SessionSound(t, g, None, t.handlers[fd].owner.value);
  }

  lemma TouchedFacts(t: Tables, g: Ledger, t': Tables, g': Ledger, id: Id)
    requires TouchedBy(t, g, t', g', id)
    ensures id in t'.sessions && g'.hand == g.hand && g'.creators == g.creators && g'.freed == g.freed
    ensures BodiesKept(t, t', Some(id))
    ensures HandlersShrink(t.handlers, t'.handlers)
    ensures id in t.registry || id in t.gc ==> id in t'.registry || id in t'.gc
  {
  }

  lemma TouchedPipe(t: Tables, g: Ledger, id: Id)
    requires id in t.sessions
    ensures TouchedBy(t, g, PipeClosed(t, id), g.(pipeCloses := g.pipeCloses + multiset{id}), id)
  {
  }

  lemma DrainedPipe(t: Tables, g: Ledger, id: Id)
    requires id in t.sessions && SessionSound(t, g, None, id)
    ensures t.sessions[id].pipeOpen == !t.sessions[id].drained
  {
  }

  lemma AdvancesSelf(t: Tables)
    ensures Advances(t, t)
  {
  }

  lemma SettledAt(h: map<int, Slot>, fd: int)
    requires Settled(h) && fd in h && h[fd].owner.Some?
    ensures h[fd].holds
  {
  }

  lemma SettledShrinks(h: map<int, Slot>, h': map<int, Slot>)
    requires Settled(h) && HandlersShrink(h, h')
    ensures Settled(h')
  {
  }

  /** Slots appear only with a reference on their owner. */
  lemma SettledRegister(h: map<int, Slot>, h': map<int, Slot>)
    requires Settled(h)
    requires forall fd :: fd in h' ==> (fd in h && h'[fd] == h[fd]) || h'[fd].holds || h'[fd].owner.None?
    ensures Settled(h')
  {
  }

  lemma SettledNone()
    ensures Settled(map[])
  {
  }

  // Nothing goes back.

  lemma KeptAdvances(t: Tables, t': Tables)
    requires BodiesKept(t, t', None)
    ensures Advances(t, t')
  {
  }

  lemma CreateAdvances(t: Tables, fdIn: int, fdOut: int)
    requires OldIds(t)
    ensures Advances(t, Created(t, fdIn, fdOut))
  {
  }

  lemma RegisterAdvances(t: Tables, t': Tables, id: Id)
    requires BodiesKept(t, t', Some(id)) && id in t.sessions && t.sessions[id].state < CLOSING
    ensures Advances(t, t')
  {
  }

  lemma PutAdvances(t: Tables, t': Tables, id: Id)
    requires id in t.sessions && t'.nextId == t.nextId
    requires t'.sessions == t.sessions - {id}
             || exists n: nat :: t' == WithRefs(t, id, n)
    ensures Advances(t, t')
  {
  }

  lemma DrainAdvances(t: Tables, g: Ledger, t': Tables)
    requires Sound(t, g, None) && DrainingBodies(t, t.registry, t')
    ensures Advances(t, t')
  {
    forall id | id in t.sessions && id in t'.sessions && t.sessions[id].state >= CLOSING
      ensures t'.sessions[id].state >= t.sessions[id].state
    {
      ClosingFacts(t, g, id);
    }
  }

  lemma CollectAdvances(t: Tables, g: Ledger, t': Tables, g': Ledger)
    requires CollectedBodies(t, g, t.gc, t', g') && t'.nextId == t.nextId
    ensures Advances(t, t')
  {
    forall id | id in t.sessions && id in t'.sessions && t.sessions[id].state >= CLOSING
      ensures t'.sessions[id].state >= t.sessions[id].state
    {
      assert CollectedAt(t, g, id in t.gc, t', g', id);
    }
  }

  lemma AllFreed(t: Tables, g: Ledger)
    requires Sound(t, g, None) && t.handlers == map[]
    ensures forall r :: r in g.places ==> g.freeRuns[r] == 1
  {
    forall r | r in g.places
      ensures g.freeRuns[r] == 1
    {
      assert FreedOnce(t, g, r);
    }
  }

  lemma AllGone(t: Tables, g: Ledger)
    requires Sound(t, g, None) && t.sessions == map[]
    ensures forall id: Id :: id < t.nextId ==> g.freed[id] == 1 && g.pipeCloses[id] == 1
  {
  }
}
