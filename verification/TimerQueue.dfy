/**
 The reactor's timer queue: a doubly linked list sorted by expiry, processed while callbacks add and
 cancel timers, including the one that is firing.
 */
module TimerQueue {

  /** `reactor_timer_internal_t`. */
  class Timer {
    const hasCallback: bool
    const interval: nat
    var expires: int
    var next: Timer?
    var prev: Timer?
    var active: bool
    var pendingDelete: bool
    var linked: bool
    var handle: bool               // public_timer != NULL

    constructor (expires: int, interval: nat, hasCallback: bool)
      ensures this.expires == expires && this.interval == interval && this.hasCallback == hasCallback
      ensures active && !pendingDelete && !linked && handle && next == null && prev == null
    {
      this.expires, this.interval, this.hasCallback := expires, interval, hasCallback;
      active, pendingDelete, linked, handle, next, prev := true, false, false, true, null, null;
    }
  }

  /** `s` is what one reads along the `next` and `prev` pointers from `head`. */
  ghost predicate Chain(head: Timer?, s: seq<Timer>)
    reads s
  {
    && (s == [] <==> head == null)
    && (s != [] ==> head == s[0] && s[0].prev == null && s[|s| - 1].next == null)
    && (forall i, j :: 0 <= i && i + 1 == j && j < |s| ==> s[i].next == s[j] && s[j].prev == s[i])
  }

  ghost predicate Distinct(s: seq<Timer>)
  {
    forall i, j :: 0 <= i < j < |s| ==> s[i] != s[j]
  }

  /** Place of a timer in the queue: when it expires and when it was inserted. */
  datatype Key = Key(expires: int, stamp: nat)

  /** Earlier expiry first, equal expiries in insertion order. */
  ghost predicate Before(a: Key, b: Key)
  {
    a.expires < b.expires || (a.expires == b.expires && a.stamp < b.stamp)
  }

  ghost predicate Sorted(keys: seq<Key>)
  {
    forall i, j :: 0 <= i < j < |keys| ==> Before(keys[i], keys[j])
  }

  /** `r` is `s` with `t` put in at position `k`. */
  ghost predicate Inserted<T>(r: seq<T>, s: seq<T>, k: nat, t: T)
  {
    && k <= |s| && |r| == |s| + 1
    && forall i {:trigger r[i]} :: 0 <= i < |r| ==> r[i] == if i < k then s[i] else if i == k then t else s[i - 1]
  }

  /** `r` is `s` without the element at position `k`. */
  ghost predicate Removed<T>(r: seq<T>, s: seq<T>, k: nat)
  {
    && k < |s| && |r| == |s| - 1
    && forall i {:trigger r[i]} :: 0 <= i < |r| ==> r[i] == if i < k then s[i] else s[i + 1]
  }

  ghost function Members(s: seq<Timer>): (r: set<Timer>)
  {
    set t | t in s
  }

  lemma {:induction false} MembersCount(s: seq<Timer>)
    ensures |Members(s)| <= |s|
    decreases |s|
  {
    if |s| > 0 {
      MembersCount(s[1..]);
      assert Members(s) == {s[0]} + Members(s[1..]);
    }
  }

  lemma InsertedMembers(r: seq<Timer>, s: seq<Timer>, k: nat, t: Timer)
    requires Inserted(r, s, k, t)
    ensures Members(r) == Members(s) + {t}
  {
    assert r == s[..k] + [t] + s[k..];
    assert s == s[..k] + s[k..];
  }

  lemma RemovedMembers(r: seq<Timer>, s: seq<Timer>, k: nat)
    requires Removed(r, s, k) && s[k] !in r
    ensures Members(r) == Members(s) - {s[k]}
  {
    assert r == s[..k] + s[k + 1..];
    assert s == s[..k] + [s[k]] + s[k + 1..];
  }

  lemma DistinctInserted(r: seq<Timer>, s: seq<Timer>, k: nat, t: Timer)
    requires Distinct(s) && t !in s && Inserted(r, s, k, t)
    ensures Distinct(r)
  {
  }

  /** Inserting behind every key that expires no later keeps the order. */
  lemma SortedInserted(r: seq<Key>, keys: seq<Key>, k: nat, key: Key)
    requires Sorted(keys) && Inserted(r, keys, k, key)
    requires forall i :: 0 <= i < |keys| ==> keys[i].stamp < key.stamp
    requires forall i :: 0 <= i < k ==> keys[i].expires <= key.expires
    requires k < |keys| ==> key.expires < keys[k].expires
    ensures Sorted(r)
  {
  }

  lemma SortedRemoved(r: seq<Key>, keys: seq<Key>, k: nat)
    requires Sorted(keys) && Removed(r, keys, k)
    ensures Sorted(r)
  {
  }

  /** What happened to the timers, in order. */
  datatype Event =
    | Fired(timer: Timer, due: int, at: int)
    | Cancelled(timer: Timer)

  /**
   No callback runs after its timer was cancelled, and none runs early; a timer that runs again is periodic, and its
   new expiry lies behind the time of the earlier run.
   */
  ghost predicate Sound(log: seq<Event>)
  {
    && (forall i, j :: 0 <= i < j < |log| && log[i].Cancelled? && log[j].Fired? ==> log[i].timer != log[j].timer)
    && (forall i :: 0 <= i < |log| && log[i].Fired? ==> log[i].due <= log[i].at)
    && (forall i, j :: 0 <= i < j < |log| && log[i].Fired? && log[j].Fired? && log[i].timer == log[j].timer ==>
          log[i].timer.interval > 0 && log[i].at < log[j].due)
  }

  /** `t` may run for the expiry `due` as far as its earlier runs are concerned. */
  ghost predicate Rested(log: seq<Event>, t: Timer, due: int)
  {
    forall i :: 0 <= i < |log| && log[i].Fired? && log[i].timer == t ==> t.interval > 0 && log[i].at < due
  }

  /** All that happened, happened to these timers and no later than `now`. */
  ghost predicate Recorded(log: seq<Event>, timers: set<Timer>, now: int)
  {
    forall i :: 0 <= i < |log| ==> log[i].timer in timers && (log[i].Fired? ==> log[i].at <= now)
  }

  lemma RestedAfterCancel(log: seq<Event>, x: Timer, t: Timer, due: int)
    requires Rested(log, t, due)
    ensures Rested(log + [Cancelled(x)], t, due)
  {
  }

  lemma RestedAfterFire(log: seq<Event>, x: Timer, d: int, at: int, t: Timer, due: int)
    requires Rested(log, t, due) && x != t
    ensures Rested(log + [Fired(x, d, at)], t, due)
  {
  }

  /** A periodic timer whose next expiry is still to come is rested, and so is a new timer. */
  lemma RestedLater(log: seq<Event>, timers: set<Timer>, now: int, t: Timer, due: int)
    requires Recorded(log, timers, now)
    ensures t !in timers || (t.interval > 0 && due > now) ==> Rested(log, t, due)
  {
  }

  lemma RecordedMore(log: seq<Event>, timers: set<Timer>, now: int, e: Event, more: set<Timer>, later: int)
    requires Recorded(log, timers, now) && timers <= more && now <= later
    ensures Recorded(log, more, later)
    ensures e.timer in timers && (e.Fired? ==> e.at <= now) ==> Recorded(log + [e], timers, now)
  {
  }

  lemma RecordedLater(log: seq<Event>, timers: set<Timer>, now: int, later: int)
    requires Recorded(log, timers, now) && now <= later
    ensures Recorded(log, timers, later)
  {
  }

  /** From position `from` on, whatever fired did so at `clock`. */
  ghost predicate FiredAt(log: seq<Event>, from: nat, clock: int)
  {
    forall k :: from <= k < |log| && log[k].Fired? ==> log[k].at == clock
  }

  lemma NothingFired(log: seq<Event>, from: nat, clock: int)
    requires from >= |log|
    ensures FiredAt(log, from, clock)
  {
  }

  /** A timer that fires again is periodic, and fires for an expiry behind its earlier run. */
  lemma OneShotFiresOnce(log: seq<Event>, i: nat, j: nat)
    requires Sound(log) && i < j < |log| && log[i].Fired? && log[j].Fired? && log[i].timer == log[j].timer
    ensures log[i].timer.interval > 0 && log[i].due <= log[i].at < log[j].due <= log[j].at
  {
  }

  /** No timer fires twice in the same pass: all firings of a pass carry the same time. */
  lemma OncePerPass(log: seq<Event>, from: nat, clock: int, i: nat, j: nat)
    requires Sound(log) && from <= i < j < |log| && log[i].Fired? && log[j].Fired?
    requires FiredAt(log, from, clock)
    ensures log[i].timer != log[j].timer
  {
  }

  /** `t` fired for its expiry `due` at time `at`, at or behind position `from` of the log. */
  ghost predicate FiredSince(log: seq<Event>, from: nat, t: Timer, due: int, at: int)
  {
    exists i :: from <= i < |log| && log[i] == Fired(t, due, at)
  }

  lemma FiredStays(a: seq<Event>, b: seq<Event>, from: nat)
    requires a <= b
    ensures forall t: Timer, due, at :: FiredSince(a, from, t, due, at) ==> FiredSince(b, from, t, due, at)
  {
    assert forall i :: 0 <= i < |a| ==> a[i] == b[i];
  }

  /** From position `from` on, timers fired in order of expiry, none later than `top`. */
  ghost predicate FiredInOrder(log: seq<Event>, from: nat, top: int)
  {
    && (forall i, j :: from <= i < j < |log| && log[i].Fired? && log[j].Fired? ==> log[i].due <= log[j].due)
    && (forall i :: from <= i < |log| && log[i].Fired? ==> log[i].due <= top)
  }

  lemma OrderFacts(log: seq<Event>, from: nat, low: int, high: int)
    requires low <= high
    ensures from >= |log| ==> FiredInOrder(log, from, low)
    ensures FiredInOrder(log, from, low) ==> FiredInOrder(log, from, high)
  {
  }

  lemma SoundFire(log: seq<Event>, t: Timer, due: int, at: int)
    requires Sound(log) && Cancelled(t) !in log && due <= at && Rested(log, t, due)
    ensures Sound(log + [Fired(t, due, at)])
  {
  }

  /** A turn on `t`: its callback runs once if it has one, and may cancel timers. */
  ghost predicate OneTurn(before: seq<Event>, log: seq<Event>, t: Timer, due: int, at: int)
  {
    && before <= log
    && (t.hasCallback ==> |log| > |before| && log[|before|] == Fired(t, due, at))
    && (!t.hasCallback ==> log == before)
    && (forall i :: |before| < i < |log| ==> log[i].Cancelled?)
  }

  lemma FiredAtTurn(before: seq<Event>, log: seq<Event>, from: nat, t: Timer, due: int, at: int)
    requires OneTurn(before, log, t, due, at) && FiredAt(before, from, at)
    ensures FiredAt(log, from, at)
  {
    assert forall i :: 0 <= i < |before| ==> log[i] == before[i];
  }

  lemma LogOfTurn(before: seq<Event>, log: seq<Event>, from: nat, t: Timer, due: int, at: int)
    requires OneTurn(before, log, t, due, at) && from <= |before| && FiredInOrder(before, from, due)
    ensures before <= log && FiredInOrder(log, from, due) && (t.hasCallback ==> FiredSince(log, from, t, due, at))
  {
    assert forall i :: 0 <= i < |before| ==> log[i] == before[i];
    if t.hasCallback { assert log[|before|] == Fired(t, due, at); }
  }

  lemma SoundCancel(log: seq<Event>, t: Timer)
    requires Sound(log)
    ensures Sound(log + [Cancelled(t)])
  {
  }

  /**
   What a callback may do to the queue. `clock` is the monotonic clock at that moment; a timer to cancel
   is named by the order in which the handles were given out.
   */
  datatype Command =
    | Add(clock: int, timeout: nat, interval: nat, hasCallback: bool)
    | Cancel(n: nat)

  /** The callback reads a clock that is not behind the pass. */
  ghost predicate Monotone(commands: seq<Command>, now: int)
  {
    forall i :: 0 <= i < |commands| && commands[i].Add? ==> commands[i].clock >= now
  }

  /** The callback adds no timer that is due at once. */
  ghost predicate AddsLater(commands: seq<Command>, now: int)
  {
    forall i :: 0 <= i < |commands| && commands[i].Add? ==> commands[i].clock + commands[i].timeout > now
  }

  /** Number of timers that a callback adds. */
  ghost function Adds(commands: seq<Command>): (n: nat)
  {
    if commands == [] then 0
    else Adds(commands[..|commands| - 1]) + if commands[|commands| - 1].Add? then 1 else 0
  }

  /** What the callbacks that ran do, in order; `ran[i]` says whether there was one for `script[i]`. */
  ghost function CommandsRun(script: seq<seq<Command>>, ran: seq<bool>): (commands: seq<Command>)
    requires |ran| <= |script|
  {
    if ran == [] then []
    else CommandsRun(script, ran[..|ran| - 1]) + if ran[|ran| - 1] then script[|ran| - 1] else []
  }

  /** The handles given out, the commands executed and the record. */
  datatype Trail = Trail(issued: seq<Timer>, executed: seq<Command>, log: seq<Event>)

  /** The commands were executed in order; each addition gave out a handle, and nothing fired meanwhile. */
  ghost predicate Obeyed(commands: seq<Command>, a: Trail, b: Trail)
  {
    && b.executed == a.executed + commands
    && a.issued <= b.issued && |b.issued| == |a.issued| + Adds(commands)
    && a.log <= b.log && forall i :: |a.log| <= i < |b.log| ==> b.log[i].Cancelled?
  }

  lemma NothingToObey(a: Trail)
    ensures Obeyed([], a, a)
  {
  }

  lemma ObeyedMore(commands: seq<Command>, n: nat, a: Trail, b: Trail, c: Trail)
    requires n < |commands| && Obeyed(commands[..n], a, b)
    requires c.executed == b.executed + [commands[n]] && b.issued <= c.issued
    requires |c.issued| == |b.issued| + if commands[n].Add? then 1 else 0
    requires c.log == b.log || (|c.log| == |b.log| + 1 && b.log <= c.log && c.log[|b.log|].Cancelled?)
    ensures Obeyed(commands[..n + 1], a, c)
  {
    AddsMore(commands, n);
    assert commands[..n + 1] == commands[..n] + [commands[n]];
  }

  /** The handles that have been taken back. */
  ghost function Gone(known: seq<Timer>): (r: set<Timer>)
    reads known
  {
    set t | t in known && !t.handle
  }

  /** Every handle of `known` that a command cancels is gone. */
  ghost predicate TakenBack(commands: seq<Command>, known: seq<Timer>, gone: set<Timer>)
  {
    forall j :: 0 <= j < |commands| && commands[j].Cancel? && commands[j].n < |known| ==> known[commands[j].n] in gone
  }

  lemma NothingTakenBack(known: seq<Timer>, gone: set<Timer>)
    ensures TakenBack([], known, gone)
  {
  }

  lemma TakenBackMore(commands: seq<Command>, n: nat, known: seq<Timer>, gone: set<Timer>, gone': set<Timer>)
    requires n < |commands| && TakenBack(commands[..n], known, gone) && gone <= gone'
    requires commands[n].Cancel? && commands[n].n < |known| ==> known[commands[n].n] in gone'
    ensures TakenBack(commands[..n + 1], known, gone')
  {
    assert commands[..n + 1] == commands[..n] + [commands[n]];
  }

  lemma RanMore(script: seq<seq<Command>>, ran: seq<bool>, b: bool)
    requires |ran| < |script|
    ensures CommandsRun(script, ran + [b]) == CommandsRun(script, ran) + if b then script[|ran|] else []
  {
    assert (ran + [b])[..|ran + [b]| - 1] == ran;
  }

  lemma AddsMore(commands: seq<Command>, k: nat)
    requires k < |commands|
    ensures Adds(commands[..k + 1]) == Adds(commands[..k]) + if commands[k].Add? then 1 else 0
  {
    assert commands[..k + 1][..k] == commands[..k];
  }

  /** `after` is the first expiry behind `now` that lies whole periods behind `before`. */
  ghost predicate Rearmed(before: int, after: int, interval: nat, now: int)
  {
    exists n: nat :: n >= 1 && after == before + n * interval && after > now && (n > 1 ==> after - interval <= now)
  }

  lemma RearmedBy(before: int, after: int, interval: nat, now: int, n: nat)
    requires n >= 1 && after == before + n * interval && after > now && (n > 1 ==> after - interval <= now)
    ensures Rearmed(before, after, interval, now)
  {
  }

  class Queue {
    var head: Timer?
    var count: nat
    ghost var spine: seq<Timer>
    ghost var keys: seq<Key>
    ghost var stamps: nat
    var now: int                   // current_time_ms
    var issued: seq<Timer>         // every handle given out so far
    ghost var executed: seq<Command>
    ghost var firing: Timer?       // taken off the list, callback not finished
    ghost var log: seq<Event>
    ghost var Repr: set<Timer>

    ghost predicate Linked()
      reads this`head, this`count, this`spine, this`keys, this`stamps, Members(spine)
    {
      && Chain(head, spine) && Distinct(spine) && count == |spine| == |keys| && Sorted(keys)
      && (forall i :: 0 <= i < |keys| ==> keys[i].stamp < stamps)
      && (forall i :: 0 <= i < |spine| ==> spine[i].linked && spine[i].expires == keys[i].expires)
    }

    /**
     A timer on the list is live with its handle out, or cancelled with its handle gone and due at once.
     A handle that is still out belongs to a timer that is on the list or firing.
     */
    ghost predicate Settled(t: Timer)
      reads this, t
    {
      && (t.linked <==> t in Members(spine))
      && t.active == !t.pendingDelete
      && (t.linked ==> t.handle == t.active && (t.pendingDelete ==> t.expires <= now))
      && (t.handle ==> t.active && (t.linked || t == firing) && Cancelled(t) !in log)
      && (t.linked && t.active ==> Rested(log, t, t.expires))
    }

    ghost predicate Valid()
      reads this, Repr
    {
      && Members(spine) <= Repr && Linked()
      && (forall t :: t in Repr ==> Settled(t))
      && (firing != null ==> firing in Repr && !firing.linked && firing.handle == firing.active)
      && (forall i :: 0 <= i < |issued| ==> issued[i] in Repr)
      && Sound(log) && Recorded(log, Repr, now)
    }

    constructor (clock: int)
      ensures Valid() && spine == [] && log == [] && now == clock && Repr == {} && firing == null
    {
      head, count, spine, keys, stamps := null, 0, [], [], 0;
      now, issued, firing, log, Repr := clock, [], null, [], {};
      executed := [];
    }

    /** The pointer surgery of `timer_list_insert` at position `k`, between `prev` and `cur`. */
    method LinkIn(t: Timer, prev: Timer?, cur: Timer?, ghost k: nat)
      requires Chain(head, spine) && Distinct(spine) && t !in spine
      requires k <= |spine|
      requires cur == if k < |spine| then spine[k] else null
      requires prev == if k > 0 then spine[k - 1] else null
      modifies this`head, this`spine, spine`next, spine`prev, t`next, t`prev
      ensures Inserted(spine, old(spine), k, t) && Chain(head, spine) && Distinct(spine)
    {
      t.prev := prev;
      t.next := cur;
      if prev != null { prev.next := t; } else { head := t; }
      if cur != null { cur.prev := t; }
      spine := spine[..k] + [t] + spine[k..];
      assert Inserted(spine, old(spine), k, t);
      DistinctInserted(spine, old(spine), k, t);
    }

    method LinkOut(t: Timer, ghost k: nat)
      requires Chain(head, spine) && Distinct(spine) && k < |spine| && spine[k] == t
      modifies this`head, this`spine, spine`next, spine`prev
      ensures Removed(spine, old(spine), k) && Chain(head, spine) && Distinct(spine) && t !in spine
    {
      assert k > 0 ==> t.prev == spine[k - 1];
      assert k + 1 < |spine| ==> t.next == spine[k + 1];
      if t.prev != null { t.prev.next := t.next; } else { head := t.next; }
      if t.next != null { t.next.prev := t.prev; }
      spine := spine[..k] + spine[k + 1..];
    }

    ghost method KeyIn(k: nat, key: Key)
      requires Sorted(keys) && k <= |keys| && forall i :: 0 <= i < |keys| ==> keys[i].stamp < key.stamp
      requires forall i :: 0 <= i < k ==> keys[i].expires <= key.expires
      requires k < |keys| ==> key.expires < keys[k].expires
      modifies this`keys
      ensures Inserted(keys, old(keys), k, key) && Sorted(keys)
    {
      keys := keys[..k] + [key] + keys[k..];
      SortedInserted(keys, old(keys), k, key);
    }

    ghost method KeyOut(k: nat)
      requires Sorted(keys) && k < |keys|
      modifies this`keys
      ensures Removed(keys, old(keys), k) && Sorted(keys)
    {
      keys := keys[..k] + keys[k + 1..];
      SortedRemoved(keys, old(keys), k);
    }

    method FindSlot(t: Timer) returns (prev: Timer?, cur: Timer?, ghost k: nat)
      requires Linked()
      ensures k <= |spine|
      ensures cur == if k < |spine| then spine[k] else null
      ensures prev == if k > 0 then spine[k - 1] else null
      ensures forall i :: 0 <= i < k ==> keys[i].expires <= t.expires
      ensures k < |spine| ==> t.expires < keys[k].expires
    {
      cur, prev, k := head, null, 0;
      while cur != null && cur.expires <= t.expires
        invariant k <= |spine|
        invariant cur == if k < |spine| then spine[k] else null
        invariant prev == if k > 0 then spine[k - 1] else null
        invariant forall i :: 0 <= i < k ==> keys[i].expires <= t.expires
        decreases |spine| - k
      {
        assert k + 1 < |spine| ==> spine[k].next == spine[k + 1];
        prev := cur;
        cur := cur.next;
        k := k + 1;
      }
    }

    /** `timer_list_insert`: behind every timer that expires no later. */
    method Insert(t: Timer) returns (ghost k: nat)
      requires Linked() && !t.linked
      modifies this`head, this`count, this`spine, this`keys, this`stamps,
               Members(spine)`next, Members(spine)`prev, t`next, t`prev, t`linked
      ensures Linked() && stamps == old(stamps) + 1
      ensures Inserted(spine, old(spine), k, t) && Inserted(keys, old(keys), k, Key(t.expires, old(stamps)))
      ensures t.linked && Members(spine) == Members(old(spine)) + {t}
    {
      hide Chain, Distinct, Sorted, Inserted;
      var prev, cur;
      prev, cur, k := FindSlot(t);
      KeyIn(k, Key(t.expires, stamps));
      stamps := stamps + 1;
      t.linked, count := true, count + 1;
      LinkIn(t, prev, cur, k);
      InsertedMembers(spine, old(spine), k, t);
    }

    /** `timer_list_remove`. */
    method Remove(t: Timer) returns (ghost k: nat)
      requires Linked() && t in Members(spine)
      modifies this`head, this`count, this`spine, this`keys,
               Members(spine)`next, Members(spine)`prev, t`linked
      ensures Linked() && !t.linked && k < |old(spine)| && old(spine)[k] == t && t !in spine
      ensures Removed(spine, old(spine), k) && Removed(keys, old(keys), k)
      ensures Members(spine) == Members(old(spine)) - {t} && count + 1 == old(count)
    {
      hide Chain, Distinct, Sorted;
      k :| 0 <= k < |spine| && spine[k] == t;
      KeyOut(k);
      LinkOut(t, k);
      t.linked := false;
      if count > 0 { count := count - 1; }
      RemovedMembers(spine, old(spine), k);
    }

    /** Still on the list or off it as before, with the same expiry and flags. */
    twostate predicate Kept(t: Timer)
      reads t
    {
      t.linked == old(t.linked) && t.active == old(t.active) && t.expires == old(t.expires) && t.handle == old(t.handle)
    }

    ghost function Trodden(): (t: Trail)
      reads this
    {
      Trail(issued, executed, log)
    }

    /** `reactor_add_timer`. */
    method AddTimer(clock: int, timeout: nat, interval: nat, hasCallback: bool) returns (t: Timer)
      requires Valid()
      modifies this, Repr
      ensures Valid() && fresh(t) && Repr == old(Repr) + {t}
      ensures log == old(log) && now == old(now) && firing == old(firing) && issued == old(issued) + [t]
      ensures executed == old(executed)
      ensures t.linked && t.handle && t.active && t.expires == clock + timeout
      ensures t.interval == interval && t.hasCallback == hasCallback
      ensures forall x :: x in old(Repr) ==> Kept(x)
    {
      hide Linked, Inserted, Sound, Members, Rested, Recorded;
      t := new Timer(clock + timeout, interval, hasCallback);
      RestedLater(log, Repr, now, t, t.expires);
      RecordedMore(log, Repr, now, Cancelled(t), Repr + {t}, now);
      ghost var k := Insert(t);
      Repr, issued := Repr + {t}, issued + [t];
    }

    /** The flag writes of a cancellation; they do not touch the list. */
    method Retire(t: Timer)
      requires Linked()
      modifies t`active, t`pendingDelete, t`handle
      ensures Linked() && !t.active && t.pendingDelete && !t.handle
    {
      t.active, t.pendingDelete, t.handle := false, true, false;
    }

    /** `reactor_cancel_timer`. A linked timer moves to the current time, so that the next pass frees it. */
    method CancelTimer(t: Timer)
      requires Valid() && t in Repr && t.handle
      modifies this, Repr
      ensures Valid() && Repr == old(Repr) && !t.handle && t.pendingDelete
      ensures log == old(log) + [Cancelled(t)] && now == old(now) && firing == old(firing) && issued == old(issued)
      ensures executed == old(executed)
      ensures t.linked == old(t.linked) && (t.linked ==> t.expires == now)
      ensures forall x :: x in Repr && x != t ==> Kept(x)
    {
      hide Linked, Members, Sound, Rested, Recorded;
      if t.linked { Requeue(t); }
      SoundCancel(log, t);
      RecordedMore(log, Repr, now, Cancelled(t), Repr, now);
      forall x | x in Repr && x != t && x.linked && x.active
        ensures Rested(log + [Cancelled(t)], x, x.expires)
      {
        RestedAfterCancel(log, t, x, x.expires);
      }
      Retire(t);
      log := log + [Cancelled(t)];
    }

    method Requeue(t: Timer)
      requires Valid() && t in Repr && t.handle && t.linked
      modifies this`head, this`count, this`spine, this`keys, this`stamps, Repr
      ensures Members(spine) <= Repr && Linked() && (forall x :: x in Repr && x != t ==> Settled(x) && Kept(x))
      ensures t in Members(spine) && t.handle && t.linked && t.expires == now && t.active && !t.pendingDelete
      ensures firing != null ==> firing in Repr && !firing.linked && firing.handle == firing.active
    {
      hide Linked, Inserted, Removed, Members, Sound, Rested, Recorded;
      ghost var k := Remove(t);
      t.expires := now;
      k := Insert(t);
    }

    /** A callback: any number of additions and cancellations. The clock never runs backwards. */
    method RunCallback(commands: seq<Command>)
      requires Valid() && Monotone(commands, now)
      modifies this, Repr
      ensures Valid() && fresh(Repr - old(Repr)) && old(Repr) <= Repr
      ensures now == old(now) && firing == old(firing)
      ensures Obeyed(commands, old(Trodden()), Trodden())
      ensures forall x :: x in old(Repr) ==>
                Kept(x) || (Cancelled(x) in log && !x.active && (x.linked ==> x.expires == now))
      ensures forall x :: x in Repr - old(Repr) && x.linked ==> x.expires >= now
      ensures AddsLater(commands, now) ==>
                forall x :: x in Repr - old(Repr) && x.linked && x.active ==> x.expires > now
      ensures TakenBack(commands, old(issued), Gone(old(issued)))
    {
      ghost var a := Trodden();
      assert commands[..0] == [];
      hide Valid, TakenBack, Obeyed;
      NothingTakenBack(a.issued, Gone(a.issued));
      NothingToObey(a);
      for i := 0 to |commands|
        invariant Valid() && fresh(Repr - old(Repr)) && old(Repr) <= Repr && now == old(now) && firing == old(firing)
        invariant TakenBack(commands[..i], a.issued, Gone(a.issued))
        invariant a.issued <= issued && Obeyed(commands[..i], a, Trodden())
        invariant forall x :: x in old(Repr) ==>
                    Kept(x) || (Cancelled(x) in log && !x.active && (x.linked ==> x.expires == now))
        invariant forall x :: x in Repr - old(Repr) && x.linked ==> x.expires >= now
        invariant AddsLater(commands, now) ==>
                    forall x :: x in Repr - old(Repr) && x.linked && x.active ==> x.expires > now
      {
        ExecuteNext(commands, i, a);
      }
      assert commands[..|commands|] == commands;
    }

    /** One command more, and the handles taken back before stay so. */
    method ExecuteNext(commands: seq<Command>, i: nat, ghost a: Trail)
      requires Valid() && i < |commands| && (commands[i].Add? ==> commands[i].clock >= now)
      requires TakenBack(commands[..i], a.issued, Gone(a.issued))
      requires a.issued <= issued && Obeyed(commands[..i], a, Trodden())
      modifies this, Repr
      ensures Valid() && fresh(Repr - old(Repr)) && old(Repr) <= Repr
      ensures now == old(now) && firing == old(firing)
      ensures Obeyed(commands[..i + 1], a, Trodden()) && a.issued <= issued && old(log) <= log
      ensures forall x :: x in old(Repr) ==>
                Kept(x) || (Cancelled(x) in log && !x.active && (x.linked ==> x.expires == now))
      ensures forall x :: x in Repr - old(Repr) ==>
                commands[i].Add? && x.expires == commands[i].clock + commands[i].timeout
      ensures TakenBack(commands[..i + 1], a.issued, Gone(a.issued))
    {
      IssuedKnown();
      hide Valid, Obeyed, TakenBack;
      ghost var before, gone := Trodden(), Gone(a.issued);
      Execute(commands[i]);
      assert a.issued == before.issued[..|a.issued|] == issued[..|a.issued|];
      TakenBackMore(commands, i, a.issued, gone, Gone(a.issued));
      ObeyedMore(commands, i, a, before, Trodden());
    }

    lemma IssuedKnown()
      requires Valid()
      ensures forall i :: 0 <= i < |issued| ==> issued[i] in Repr
    {
    }

    method Execute(command: Command)
      requires Valid() && (command.Add? ==> command.clock >= now)
      modifies this, Repr
      ensures Valid() && fresh(Repr - old(Repr)) && old(Repr) <= Repr
      ensures now == old(now) && firing == old(firing) && executed == old(executed) + [command]
      ensures log == old(log) || exists t :: t in Repr && log == old(log) + [Cancelled(t)]
      ensures forall x :: x in old(Repr) ==>
                Kept(x) || (Cancelled(x) in log && !x.active && (x.linked ==> x.expires == now))
      ensures forall x :: x in Repr - old(Repr) ==> command.Add? && x.expires == command.clock + command.timeout
      ensures forall x :: x in old(Repr) && !old(x.handle) ==> !x.handle
      // an addition gives out one handle, of a timer as it was asked for
      ensures command.Add? ==>
                && |issued| == |old(issued)| + 1 && issued[..|old(issued)|] == old(issued) && log == old(log)
                && var t := issued[|old(issued)|];
                   && t !in old(Repr) && t.linked && t.active && t.handle
                   && t.expires == command.clock + command.timeout && t.interval == command.interval
                   && t.hasCallback == command.hasCallback
      // a cancellation takes back the handle it names, if it is out
      ensures command.Cancel? ==>
                && issued == old(issued) && (command.n < |issued| ==> !issued[command.n].handle)
                && log == if command.n < |issued| && old(issued[command.n].handle)
                          then old(log) + [Cancelled(issued[command.n])] else old(log)
    {
      hide Linked, Members, Sound, Rested, Recorded;
      match command {
        case Add(clock, timeout, interval, hasCallback) =>
          var _ := AddTimer(clock, timeout, interval, hasCallback);
        case Cancel(n) =>
          if n < |issued| && issued[n].handle { CancelTimer(issued[n]); }
      }
      executed := executed + [command];
    }

    /** The first expiry behind `now`, a whole number of periods later. */
    static method NextDue(expires: int, interval: nat, now: int) returns (due: int, ghost n: nat)
      requires interval > 0
      ensures n >= 1 && due == expires + n * interval && due > now
      ensures n > 1 ==> due - interval <= now
    {
      due, n := expires + interval, 1;
      while due <= now
        invariant n >= 1 && due == expires + n * interval
        invariant n > 1 ==> due - interval <= now
        decreases now - due
      {
        due, n := due + interval, n + 1;
      }
    }

    lemma HeadIsFirst(t: Timer)
      requires Linked() && head == t
      ensures t in Members(spine)
    {
    }

    /** Nothing on the list expires before its head. */
    lemma HeadIsEarliest()
      requires Valid() && head != null
      ensures forall t :: t in Repr && t.linked ==> t.expires >= head.expires
    {
      forall i | 0 <= i < |spine|
        ensures spine[i].expires >= head.expires
      {
        assert spine[0] == head && head.expires == keys[0].expires;
        assert i > 0 ==> Before(keys[0], keys[i]);
      }
    }

    lemma HeadFacts()
      requires Valid()
      ensures head != null ==>
                head in Repr && head.linked && forall t :: t in Repr && t.linked ==> t.expires >= head.expires
    {
      if head != null { HeadIsEarliest(); }
    }

    lemma NoHeadNoTimers()
      requires Valid() && head == null
      ensures forall t :: t in Repr ==> !t.linked
    {
    }

    /** The due timer leaves the list before its callback runs. */
    method TakeHead() returns (t: Timer)
      requires Valid() && firing == null && head != null && !head.pendingDelete
      modifies this`head, this`count, this`spine, this`keys, this`firing, Repr
      ensures Valid() && t == old(head) && firing == t && t.handle && t.active && t.expires == old(head.expires)
      ensures t in Repr && !t.linked
      ensures Rested(log, t, t.expires)
      ensures forall x :: x in Repr && x != t ==> Kept(x)
    {
      hide Linked, Removed, Members, Sound, Rested, Recorded;
      t := head;
      HeadIsFirst(t);
      ghost var k := Remove(t);
      firing := t;
    }

    /** After the callback: re-arm a periodic timer that was not cancelled, free any other. */
    method Finish(t: Timer)
      requires Valid() && firing == t
      modifies this`head, this`count, this`spine, this`keys, this`stamps, this`firing, Repr
      ensures Valid() && firing == null
      ensures t.linked <==> old(t.active && t.interval > 0)
      ensures t.linked ==> t.expires > now && Rearmed(old(t.expires), t.expires, t.interval, now)
      ensures t.active == old(t.active) && (!t.linked ==> !t.handle)
      ensures forall x :: x in Repr && x != t ==> Kept(x)
    {
      hide Linked, Inserted, Members, Sound, Rested, Recorded, Rearmed;
      if t.active && !t.pendingDelete && t.interval > 0 {
        ghost var n, k;
        t.expires, n := NextDue(t.expires, t.interval, now);
        RearmedBy(old(t.expires), t.expires, t.interval, now, n);
        RestedLater(log, Repr, now, t, t.expires);
        k := Insert(t);
      } else {
        t.handle := false;
      }
      firing := null;
    }

    /** The firing timer's callback starts. */
    ghost method NoteFired(t: Timer)
      requires Valid() && firing == t && t.handle && t.expires <= now && Rested(log, t, t.expires) && !t.linked
      modifies this`log
      ensures Valid() && log == old(log) + [Fired(t, t.expires, now)]
    {
      hide Linked, Members, Sound, Rested, Recorded;
      var e := Fired(t, t.expires, now);
      SoundFire(log, t, t.expires, now);
      RecordedMore(log, Repr, now, e, Repr, now);
      forall x | x in Repr && x.linked && x.active
        ensures Rested(log + [e], x, x.expires)
      {
        RestedAfterFire(log, t, t.expires, now, x, x.expires);
      }
      log := log + [e];
    }

    /** One turn of the pass on a timer that is due and not cancelled. */
    method FireHead(commands: seq<Command>)
      requires Valid() && firing == null && head != null && head.expires <= now && !head.pendingDelete
      requires Monotone(commands, now)
      modifies this, Repr
      ensures Valid() && firing == null && now == old(now) && fresh(Repr - old(Repr)) && old(Repr) <= Repr
      ensures |issued| == |old(issued)| + if old(head).hasCallback then Adds(commands) else 0
      ensures executed == old(executed) + if old(head).hasCallback then commands else []
      // its callback runs once, and afterwards it is re-armed or freed
      ensures OneTurn(old(log), log, old(head), old(head.expires), now)
      ensures old(head).linked <==> old(head).active && old(head).interval > 0
      ensures old(head).active || Cancelled(old(head)) in log
      ensures if old(head).linked
              then old(head).expires > now && Rearmed(old(head.expires), old(head).expires, old(head).interval, now)
              else !old(head).handle
      ensures forall x :: x in old(Repr) && x != old(head) ==>
                Kept(x) || (Cancelled(x) in log && !x.active && (x.linked ==> x.expires == now))
      ensures forall x :: x in Repr && x.linked ==> x.expires >= old(head.expires)
      ensures AddsLater(commands, now) ==>
                forall x :: x in Repr - old(Repr) + {old(head)} && x.linked && x.active ==> x.expires > now
    {
      HeadFacts();
      hide Valid, Linked, Members, Sound, Rested, Recorded, OneTurn, AddsLater, Monotone, Adds, Rearmed;
      var t := TakeHead();
      FireTaken(t, commands);
    }

    /** The turn of a timer that has been taken off the list. */
    method FireTaken(t: Timer, commands: seq<Command>)
      requires Valid() && firing == t && t in Repr && t.handle && t.active && !t.linked && t.expires <= now
      requires Rested(log, t, t.expires) && Monotone(commands, now)
      modifies this, Repr
      ensures Valid() && firing == null && now == old(now) && fresh(Repr - old(Repr)) && old(Repr) <= Repr
      ensures OneTurn(old(log), log, t, old(t.expires), now)
      ensures t.linked <==> t.active && t.interval > 0
      ensures t.active || Cancelled(t) in log
      ensures if t.linked then t.expires > now && Rearmed(old(t.expires), t.expires, t.interval, now) else !t.handle
      ensures |issued| == |old(issued)| + if t.hasCallback then Adds(commands) else 0
      ensures executed == old(executed) + if t.hasCallback then commands else []
      ensures forall x :: x in old(Repr) && x != t ==>
                Kept(x) || (Cancelled(x) in log && !x.active && (x.linked ==> x.expires == now))
      ensures forall x :: x in Repr - old(Repr) && x.linked ==> x.expires >= now
      ensures AddsLater(commands, now) ==>
                forall x :: x in Repr - old(Repr) && x.linked && x.active ==> x.expires > now
    {
      hide Valid, Linked, Members, Sound, Rested, Recorded, OneTurn, AddsLater, Monotone, Adds, Rearmed;
      RunFiring(t, commands);
      Finish(t);
    }

    /** The callback of the timer that was taken off the list, if it has one. */
    method RunFiring(t: Timer, commands: seq<Command>)
      requires Valid() && firing == t && t in Repr && t.handle && t.active && !t.linked && t.expires <= now
      requires Rested(log, t, t.expires) && Monotone(commands, now)
      modifies this, Repr
      ensures Valid() && firing == t && now == old(now) && fresh(Repr - old(Repr)) && old(Repr) <= Repr
      ensures OneTurn(old(log), log, t, old(t.expires), now)
      ensures |issued| == |old(issued)| + if t.hasCallback then Adds(commands) else 0
      ensures executed == old(executed) + if t.hasCallback then commands else []
      ensures forall x :: x in old(Repr) ==>
                Kept(x) || (Cancelled(x) in log && !x.active && (x.linked ==> x.expires == now))
      ensures forall x :: x in Repr - old(Repr) && x.linked ==> x.expires >= now
      ensures AddsLater(commands, now) ==>
                forall x :: x in Repr - old(Repr) && x.linked && x.active ==> x.expires > now
    {
      hide Valid, Linked, Members, Sound, Rested, Recorded, Adds, TakenBack;
      if t.active && t.hasCallback && t.handle {
        NoteFired(t);
        ghost var before := log;
        RunCallback(commands);
        assert forall i :: 0 <= i < |before| ==> log[i] == before[i];
      }
    }

    /** One turn of the pass on a cancelled timer: it is freed without a callback. */
    method DropHead()
      requires Valid() && firing == null && head != null && head.pendingDelete
      modifies this, Repr
      ensures Valid() && firing == null && now == old(now) && log == old(log) && Repr == old(Repr)
      ensures count + 1 == old(count) && issued == old(issued) && executed == old(executed)
      ensures !old(head).linked && forall x :: x in Repr && x != old(head) ==> Kept(x)
    {
      hide Linked, Removed, Members, Sound, Rested, Recorded;
      HeadIsFirst(head);
      ghost var k := Remove(head);
    }

    /** Where a timer that fired for the expiry `due` stands: at its next expiry, or nowhere if it was for once. */
    ghost predicate Stands(t: Timer, due: int)
      reads this`now, t
    {
      if t.interval > 0 then t.linked && t.expires > now && Rearmed(due, t.expires, t.interval, now)
      else !t.linked && !t.handle
    }

    /**
     Each timer of `owed` has fired for its expiry and stands where it should, was cancelled, or is still waiting on the
     list.
     */
    ghost predicate AllOwed(owed: map<Timer, int>, from: nat)
      reads this, Repr
    {
      forall t :: t in owed ==>
        t in Repr && ((FiredSince(log, from, t, owed[t], now) && t.active && Stands(t, owed[t])) || Cancelled(t) in log
                      || (t.linked && t.active && t.expires == owed[t]))
    }

    /** Only timers of `due` can still fire in this pass. */
    ghost predicate OnlyDue(due: set<Timer>)
      reads this, Repr
    {
      forall t :: t in Repr && t.linked && t.active && t.expires <= now ==> t in due
    }

    /** A turn of the pass that fires. */
    method FireTurn(commands: seq<Command>, ghost from: nat, ghost floor: int, ghost owed: map<Timer, int>,
                    ghost due: set<Timer>, ghost script: seq<seq<Command>>, ghost ran: seq<bool>,
                    ghost done: seq<Command>)
      requires Valid() && firing == null && head != null && head.expires <= now && !head.pendingDelete
      requires Monotone(commands, now) && from <= |log| && floor <= head.expires && FiredInOrder(log, from, floor)
      requires AllOwed(owed, from) && (forall t :: t in owed ==> t.hasCallback) && FiredAt(log, from, now)
      requires |ran| < |script| && commands == script[|ran|] && executed == done + CommandsRun(script, ran)
      modifies this, Repr
      ensures Valid() && firing == null && now == old(now) && old(log) <= log
      ensures fresh(Repr - old(Repr)) && old(Repr) <= Repr
      ensures FiredInOrder(log, from, old(head.expires)) && FiredAt(log, from, now) && AllOwed(owed, from)
      ensures head != null ==> old(head.expires) <= head.expires
      ensures old(OnlyDue(due)) && AddsLater(commands, now) ==> OnlyDue(due - {old(head)})
      ensures executed == done + CommandsRun(script, ran + [old(head).hasCallback])
    {
      hide Valid, Linked, Members, Sound, Rested, Recorded, AddsLater, Monotone, FiredInOrder, FiredSince, OneTurn;
      hide Adds, Rearmed, CommandsRun;
      RanMore(script, ran, head.hasCallback);
      OrderFacts(log, from, floor, head.expires);
      ghost var before := log;
      ghost var t, at := head, head.expires;
      FireHead(commands);
      LogOfTurn(before, log, from, t, at, now);
      FiredStays(before, log, from);
      FiredAtTurn(before, log, from, t, at, now);
      HeadFacts();
    }

    /** A turn of the pass that only frees. */
    method DropTurn(ghost from: nat, ghost owed: map<Timer, int>, ghost due: set<Timer>)
      requires Valid() && firing == null && head != null && head.pendingDelete && AllOwed(owed, from)
      modifies this, Repr
      ensures Valid() && firing == null && now == old(now) && log == old(log) && Repr == old(Repr)
      ensures count + 1 == old(count) && AllOwed(owed, from) && issued == old(issued) && executed == old(executed)
      ensures head != null ==> old(head.expires) <= head.expires
      ensures old(OnlyDue(due)) ==> OnlyDue(due)
    {
      HeadFacts();
      ListFacts();
      hide Valid, Linked, Members, Sound, Rested, Recorded, FiredSince;
      DropHead();
      HeadFacts();
    }

    /**
     `process_expired_timers`. `script` says what the callbacks of this pass do, one entry per firing; the
     pass is `finished` unless callbacks keep adding timers that are already due beyond the script.
     */
    method ProcessExpired(clock: int, script: seq<seq<Command>>) returns (finished: bool, ghost ran: seq<bool>)
      requires Valid() && firing == null && clock >= now
      requires forall i :: 0 <= i < |script| ==> Monotone(script[i], clock)
      modifies this, Repr
      ensures Valid() && firing == null && now == clock && old(log) <= log && fresh(Repr - old(Repr))
      // nothing due and nothing cancelled is left
      ensures finished ==> forall t :: t in Members(spine) ==> t.expires > now && !t.pendingDelete
      // every timer that was due has fired and stands at its next expiry, unless it was cancelled
      ensures finished ==>
                forall t :: t in old(Members(spine)) && old(t.active && t.expires <= clock) && t.hasCallback ==>
                  (FiredSince(log, |old(log)|, t, old(t.expires), clock) && Stands(t, old(t.expires)))
                  || Cancelled(t) in log
      // in order of expiry, and none twice
      ensures FiredInOrder(log, |old(log)|, clock)
      ensures forall i, j :: |old(log)| <= i < j < |log| && log[i].Fired? && log[j].Fired? ==>
                log[i].timer != log[j].timer
      // the callbacks that ran have done what they do, in order
      ensures |ran| <= |script| && executed == old(executed) + CommandsRun(script, ran)
      // and the pass does finish unless callbacks add timers that are due at once
      ensures |script| >= old(count) && (forall i :: 0 <= i < |script| ==> AddsLater(script[i], clock)) ==> finished
    {
      ListFacts();
      MoveClock(clock);
      hide Valid, Linked, Members, Sound, Rested, Recorded, FiredSince, FiredInOrder, Monotone, AddsLater;
      ghost var owed := map t | t in Repr && t.linked && t.active && t.expires <= clock && t.hasCallback :: t.expires;
      ghost var from, due := |log|, Due();
      assert AllOwed(owed, from) && OnlyDue(due);
      finished, ran := RunPass(script, owed, due);
    }

    /** The loop of the pass. */
    method RunPass(script: seq<seq<Command>>, ghost owed: map<Timer, int>, ghost all: set<Timer>)
      returns (finished: bool, ghost ran: seq<bool>)
      requires Valid() && firing == null && AllOwed(owed, |log|) && OnlyDue(all) && |all| <= count
      requires forall t :: t in owed ==> t.hasCallback && owed[t] <= now
      requires forall i :: 0 <= i < |script| ==> Monotone(script[i], now)
      modifies this, Repr
      ensures Valid() && firing == null && now == old(now) && old(log) <= log && fresh(Repr - old(Repr))
      ensures finished ==> forall t :: t in Members(spine) ==> t.expires > now && !t.pendingDelete
      ensures finished ==>
                forall t :: t in owed ==>
                  (FiredSince(log, |old(log)|, t, owed[t], now) && Stands(t, owed[t])) || Cancelled(t) in log
      ensures FiredInOrder(log, |old(log)|, now)
      ensures forall i, j :: |old(log)| <= i < j < |log| && log[i].Fired? && log[j].Fired? ==>
                log[i].timer != log[j].timer
      ensures |script| >= old(count) && (forall i :: 0 <= i < |script| ==> AddsLater(script[i], now)) ==> finished
      ensures |ran| <= |script| && executed == old(executed) + CommandsRun(script, ran)
    {
      hide Valid, Linked, Members, Sound, Rested, Recorded, FiredSince, FiredInOrder, Monotone, AddsLater;
      assert CommandsRun(script, []) == [];
      hide AllOwed, OnlyDue, FiredAt, Stands, CommandsRun;
      var i := 0;
      ran := [];
      ghost var from, floor, due, clock := |log|, now, all, now;
      ghost var calm := |script| >= count && forall i :: 0 <= i < |script| ==> AddsLater(script[i], clock);
      if head != null && head.expires < now { floor := head.expires; }
      OrderFacts(log, from, floor, floor);
      NothingFired(log, from, now);
      while head != null && head.expires <= now
        invariant Valid() && firing == null && now == clock && old(log) <= log && from == |old(log)|
        invariant old(Repr) <= Repr && fresh(Repr - old(Repr)) && i <= |script|
        invariant AllOwed(owed, from) && FiredAt(log, from, now)
        invariant floor <= clock && FiredInOrder(log, from, floor)
        invariant head != null ==> floor <= head.expires
        invariant calm ==> OnlyDue(due) && |due| <= |script| - i
        invariant |ran| == i && executed == old(executed) + CommandsRun(script, ran)
        decreases |script| - i, count
      {
        ghost var first, at := head, head.expires;
        OrderFacts(log, from, floor, at);
        if head.pendingDelete {
          DropTurn(from, owed, due);
          floor := at;
        } else {
          HeadIsDue(due);
          if i == |script| {
            OrderFacts(log, from, floor, clock);
            PassOnce(log, from, clock);
            return false, ran;
          }
          FireTurn(script[i], from, floor, owed, due, script, ran, old(executed));
          ran := ran + [first.hasCallback];
          i, floor, due := i + 1, at, due - {first};
        }
      }
      OrderFacts(log, from, floor, clock);
      PassOnce(log, from, clock);
      PassDone(owed, from);
      finished := true;
    }

    /** Time passes: what was valid stays valid. */
    method MoveClock(clock: int)
      requires Valid() && firing == null && clock >= now
      modifies this`now
      ensures Valid() && now == clock
    {
      hide Linked, Members, Sound, Rested, Recorded;
      RecordedLater(log, Repr, now, clock);
      now := clock;
    }

    /** The head of the list, if it is due and not cancelled, is among the timers that can fire. */
    lemma HeadIsDue(due: set<Timer>)
      requires Valid() && head != null && head.expires <= now && !head.pendingDelete
      ensures OnlyDue(due) ==> head in due && |due| > 0 && |due - {head}| == |due| - 1
    {
      ListFacts();
    }

    /** With nothing due left on the list, the pass has done what it owed. */
    lemma PassDone(owed: map<Timer, int>, from: nat)
      requires Valid() && AllOwed(owed, from) && (head == null || head.expires > now)
      ensures forall t :: t in Members(spine) ==> t.expires > now && !t.pendingDelete
      ensures forall t :: t in owed && owed[t] <= now ==>
                (FiredSince(log, from, t, owed[t], now) && Stands(t, owed[t])) || Cancelled(t) in log
    {
      hide FiredSince, Stands;
      ListFacts();
    }

    lemma PassOnce(log: seq<Event>, from: nat, clock: int)
      requires Valid() && log == this.log && FiredAt(log, from, clock)
      ensures forall i, j :: from <= i < j < |log| && log[i].Fired? && log[j].Fired? ==> log[i].timer != log[j].timer
    {
      forall i, j | from <= i < j < |log| && log[i].Fired? && log[j].Fired?
        ensures log[i].timer != log[j].timer
      {
        OncePerPass(log, from, clock, i, j);
      }
    }

    /** The timers that are due, no more than there are on the list. */
    ghost function Due(): (due: set<Timer>)
      requires Valid()
      reads this, Repr
      ensures forall t :: t in Repr && t.linked && t.active && t.expires <= now ==> t in due
      ensures |due| <= count
    {
      MembersCount(spine);
      Members(spine)
    }

    /** What `Valid` says about the list, without the list. */
    lemma ListFacts()
      requires Valid()
      ensures forall t :: t in Members(spine) <==> t in Repr && t.linked
      ensures forall t :: t in Repr && t.linked ==> t.active == !t.pendingDelete
      ensures forall t :: t in Repr && t.linked && t.pendingDelete ==> t.expires <= now
      ensures head != null ==> head in Repr && head.linked
      ensures head != null ==> forall t :: t in Repr && t.linked ==> t.expires >= head.expires
      ensures head == null ==> forall t :: t in Repr ==> !t.linked
    {
      if head != null { HeadIsEarliest(); } else { NoHeadNoTimers(); }
    }
  }
}
