/**
 Asynchronous validation of a configuration: a child process is started, its output is read from a pipe, and
 pipe, timer and manual cleanup race to finish the validation once.
 */
module AsyncValidate {
  import opened Options

  const OUTPUT_SIZE := 4096

  type byte = x: int | 0 <= x < 256

  /** The child as the kernel sees it; `status` is the raw wait status. */
  datatype Child = NoChild | Alive | Zombie(status: nat) | Gone

  datatype ReadResult = Data(bytes: seq<byte>) | Interrupted | WouldBlock | EndOfFile | ReadError

  /** What the kernel was asked to do. */
  datatype Act =
    | Register(fd: int)
    | Deregister(fd: int)
    | Close(fd: int)
    | Waited(status: nat)                  // a successful wait
    | Killed
    | Called(verdict: int)                 // the caller's callback

  /** `async_validate_ctx_t`. */
  datatype Context = Context(
    pipeFd: int, timerFd: int, childPid: int, attached: bool,
    output: seq<byte>, truncated: bool,
    completed: bool, reaped: bool, status: nat, statusValid: bool)

  /** `WIFEXITED(status) && WEXITSTATUS(status) == 0`. */
  predicate CleanExit(status: nat)
  {
    status % 128 == 0 && status / 256 % 256 == 0
  }

  /** Exactly the exit with code 0 is clean; neither another code nor a signal, with or without a core dump, is. */
  lemma CleanExitMeans(code: nat, signal: nat, core: nat)
    requires code < 256 && 0 < signal < 128 && core in {0, 128}
    ensures CleanExit(256 * code) <==> code == 0
    ensures !CleanExit(signal + core)
  {
  }

  /** The first bytes that fit the output buffer with its terminator. */
  function Kept(received: seq<byte>): (r: seq<byte>)
  {
    if |received| < OUTPUT_SIZE then received else received[..OUTPUT_SIZE - 1]
  }

  ghost predicate About(a: Act, fd: int)
  {
    a == Register(fd) || a == Deregister(fd) || a == Close(fd)
  }

  /** Every descriptor is closed after it has left the reactor, and nothing is done to it afterwards. */
  ghost predicate ClosedInOrder(acts: seq<Act>)
  {
    forall i :: 0 <= i < |acts| && acts[i].Close? ==>
      && (Register(acts[i].fd) in acts[..i] ==> Deregister(acts[i].fd) in acts[..i])
      && (forall j :: i < j < |acts| ==> !About(acts[j], acts[i].fd))
  }

  /** Which wait results there were. */
  ghost predicate WaitsAre(acts: seq<Act>, waited: Option<nat>)
  {
    && (forall i :: 0 <= i < |acts| && acts[i].Waited? ==> waited == Some(acts[i].status))
    && (forall i, j :: 0 <= i < j < |acts| && acts[i].Waited? ==> !acts[j].Waited?)
    && (waited.Some? ==> Waited(waited.value) in acts)
  }

  /** The kernel's side. */
  datatype Kernel = Kernel(child: Child, registered: set<int>)

  /** Past and truth: `fds` were opened for the validation, `died` is how the child really ended. */
  datatype Past = Past(acts: seq<Act>, fds: set<int>, died: Option<nat>, waited: Option<nat>, received: seq<byte>)

  /** The descriptors of the context that are open. */
  function Open(c: Context): (r: set<int>)
  {
    (if c.pipeFd >= 0 then {c.pipeFd} else {}) + if c.timerFd >= 0 then {c.timerFd} else {}
  }

  /** `live` descriptors are open, `registered` ones are in the reactor. */
  ghost predicate FdsSound(live: set<int>, registered: set<int>, fds: set<int>, acts: seq<Act>)
  {
    && live <= fds && registered <= live
    && (forall fd :: fd in fds ==> (Close(fd) in acts <==> fd !in live))
    && (forall a :: a in acts && (a.Register? || a.Deregister? || a.Close?) ==> a.fd in fds)
    && (forall fd :: Register(fd) in acts && fd !in registered ==> Deregister(fd) in acts)
    && ClosedInOrder(acts)
  }

  ghost predicate ChildSound(c: Context, child: Child, p: Past)
  {
    && WaitsAre(p.acts, p.waited)
    && (child.Zombie? ==> p.died == Some(child.status)) && (child.Alive? || child.NoChild? ==> p.died.None?)
    && (p.waited.Some? ==> p.died == p.waited && child.Gone? && c.reaped)
    && (c.reaped ==> child.Gone?)
    && (c.statusValid ==> p.waited == Some(c.status))
    && (c.childPid > 0 ==> !child.NoChild?) && c.childPid >= -1 && c.childPid != 0
    && (c.childPid <= 0 ==> child.NoChild? || child.Gone?)
  }

  ghost predicate OutputSound(output: seq<byte>, truncated: bool, received: seq<byte>)
  {
    output == Kept(received) && (truncated <==> |received| >= OUTPUT_SIZE)
  }

  ghost predicate Sound(c: Context, k: Kernel, p: Past)
  {
    && (c.pipeFd >= 0 ==> c.pipeFd != c.timerFd)
    && (c.pipeFd < 0 ==> c.pipeFd == -1) && (c.timerFd < 0 ==> c.timerFd == -1)
    && FdsSound(Open(c), k.registered, p.fds, p.acts) && ChildSound(c, k.child, p)
    && OutputSound(c.output, c.truncated, p.received)
  }

  /** Between events a reaped child's status is known. */
  ghost predicate StatusKnown(c: Context)
  {
    c.reaped && !c.completed && c.childPid > 0 ==> c.statusValid
  }

  ghost predicate Uncalled(acts: seq<Act>)
  {
    forall i :: 0 <= i < |acts| ==> !acts[i].Called?
  }

  /**
   The callback has run once, after everything else: each descriptor was closed, the child is no more, and a
   positive verdict is true.
   */
  ghost predicate Finished(c: Context, k: Kernel, p: Past)
  {
    && p.acts != [] && p.acts[|p.acts| - 1].Called? && Uncalled(p.acts[..|p.acts| - 1])
    && (p.acts[|p.acts| - 1].verdict == 1 ==> p.died.Some? && CleanExit(p.died.value))
    && Open(c) == {} && k.registered == {} && (k.child.Gone? || k.child.NoChild?)
    && (forall fd :: fd in p.fds ==> Close(fd) in p.acts[..|p.acts| - 1])
  }

  // What an event does.

  datatype Event =
    | PipeReady(results: seq<ReadResult>, fate: nat, reentry: nat)
    | TimerFires(readOk: bool, killFails: bool, fate: nat, reentry: nat)
    | Manual(fate: nat, reentry: nat)
    | Exits(status: nat)
    | Stolen

  datatype View = View(c: Context, k: Kernel, p: Past)

  /** The output before the read result that decides, and that result. */
  datatype Gathered = Gathered(bytes: seq<byte>, last: ReadResult)

  ghost function Gather(results: seq<ReadResult>): (g: Gathered)
    ensures !g.last.Data? && !g.last.Interrupted?
  {
    if results == [] then Gathered([], WouldBlock)
    else
      match results[0]
      case Data(bytes) => Gathered(bytes + Gather(results[1..]).bytes, Gather(results[1..]).last)
      case Interrupted => Gather(results[1..])
      case last => Gathered([], last)
  }

  lemma GatherAt(results: seq<ReadResult>, i: nat)
    requires i < |results|
    ensures Gather(results[i..])
         == if results[i].Data? then
              Gathered(results[i].bytes + Gather(results[i + 1..]).bytes, Gather(results[i + 1..]).last)
            else if results[i].Interrupted? then Gather(results[i + 1..])
            else Gathered([], results[i])
  {
    assert results[i..][1..] == results[i + 1..];
  }

  lemma GatherNone(results: seq<ReadResult>)
    ensures Gather(results[..0]) == Gather(results[|results|..]) == Gathered([], WouldBlock)
    ensures results[0..] == results
  {
  }

  /** `act` was recorded after `before`. */
  ghost predicate Since(before: seq<Act>, act: Act, after: seq<Act>)
  {
    before <= after && act in after[|before|..]
  }

  lemma SinceIn(before: seq<Act>, mid: seq<Act>, act: Act, more: seq<Act>)
    requires before <= mid && act in more
    ensures Since(before, act, mid + more)
  {
    var i :| 0 <= i < |more| && more[i] == act;
    assert (mid + more)[|before|..][|mid| - |before| + i] == act;
  }

  lemma SinceLater(before: seq<Act>, act: Act, mid: seq<Act>, after: seq<Act>)
    requires Since(before, act, mid) && mid <= after
    ensures Since(before, act, after)
  {
    assert after == mid + after[|mid|..];
    assert mid == before + mid[|before|..];
    assert after[|before|..] == mid[|before|..] + after[|mid|..];
  }

  /** The child has to be waited for. */
  predicate Unreaped(c: Context)
  {
    c.childPid > 0 && !c.reaped
  }

  /** A running child is killed before it is waited for. */
  function ReleaseActs(c: Context, child: Child, fate: nat): (acts: seq<Act>)
  {
    if !Unreaped(c) then []
    else if child.Alive? then [Killed, Waited(fate)]
    else if child.Zombie? then [Waited(child.status)]
    else []
  }

  /** The validation ends with this verdict, after everything that was recorded before. */
  ghost predicate Ends(a: View, verdict: int, b: View)
  {
    && b.c.completed && a.p.acts <= b.p.acts && b.p.acts != a.p.acts
    && b.p.acts[|b.p.acts| - 1] == Called(verdict)
  }

  lemma EndsBy(a: View, mid: seq<Act>, more: seq<Act>, verdict: int, b: View)
    requires a.p.acts <= mid && b.p.acts == mid + more + [Called(verdict)] && b.c.completed
    ensures Ends(a, verdict, b) && (Killed in more ==> Since(a.p.acts, Killed, b.p.acts))
  {
    if Killed in more {
      SinceIn(a.p.acts, mid, Killed, more + [Called(verdict)]);
      assert b.p.acts == mid + (more + [Called(verdict)]);
    }
  }

  lemma EndsFrom(a: View, a': View, verdict: int, b: View)
    requires Ends(a', verdict, b) && a.p.acts <= a'.p.acts
    ensures Ends(a, verdict, b) && a'.p.acts <= b.p.acts
  {
  }

  /** End of file: the child's exit decides, unless it is still running; a child waited for elsewhere is an error. */
  ghost predicate Settled(a: View, b: View)
  {
    if Unreaped(a.c) && a.k.child.Alive? then b == a
    else if Unreaped(a.c) && a.k.child.Zombie? then Ends(a, if CleanExit(a.k.child.status) then 1 else 0, b)
    else if a.c.childPid > 0 && a.c.reaped then Ends(a, if CleanExit(a.c.status) then 1 else 0, b)
    else Ends(a, 0, b)
  }

  /** The pipe: the output is taken, then the first result that is no output decides. */
  ghost predicate PipeRead(a: View, results: seq<ReadResult>, b: View)
  {
    var g := Gather(results);
    var received := a.p.received + g.bytes;
    var read := View(a.c.(output := Kept(received), truncated := |received| >= OUTPUT_SIZE), a.k,
                     a.p.(received := received));
    if g.last.WouldBlock? then b == read
    else if g.last.EndOfFile? then Settled(read, b)
    else Ends(read, 0, b)
  }

  /**
   The timer: a child that has already exited is left to the end of its output, with its status kept; a running
   one is killed and the verdict is negative.
   */
  ghost predicate TimedOut(a: View, readOk: bool, b: View)
  {
    if readOk && Unreaped(a.c) && a.k.child.Zombie? then
      && b.c == a.c.(reaped := true, status := a.k.child.status, statusValid := true)
      && b.k == a.k.(child := Gone)
      && b.p == a.p.(acts := a.p.acts + [Waited(a.k.child.status)], waited := Some(a.k.child.status))
    else if readOk && !Unreaped(a.c) then b == a
    else
      && Ends(a, 0, b)
      && (Unreaped(a.c) && a.k.child.Alive? ==> Since(a.p.acts, Killed, b.p.acts))
  }

  /** Callbacks of descriptors that are not in the reactor, or after the end, do nothing. */
  ghost predicate Handled(a: View, e: Event, b: View)
  {
    match e
    case PipeReady(results, _, _) =>
      if a.c.pipeFd in a.k.registered && !a.c.completed then PipeRead(a, results, b) else b == a
    case TimerFires(readOk, _, _, _) =>
      if a.c.timerFd in a.k.registered && !a.c.completed then TimedOut(a, readOk, b) else b == a
    case Manual(_, _) => if a.c.completed then b == a else Ends(a, -1, b)
    case Exits(status) =>
      b == if a.k.child.Alive? then View(a.c, a.k.(child := Zombie(status)), a.p.(died := Some(status))) else a
    case Stolen => b == if a.k.child.Zombie? then a.(k := a.k.(child := Gone)) else a
  }

  /**
   A child that exits is judged by its exit status, also when the timer fires before the end of its output is
   read.
   */
  lemma VerdictIsExit(path: seq<View>, status: nat, expiry: Event, end: Event)
    requires |path| == 4 && path[0].k.child.Alive? && Unreaped(path[0].c) && !path[0].c.completed
    requires {path[0].c.pipeFd, path[0].c.timerFd} <= path[0].k.registered
    requires Handled(path[0], Exits(status), path[1])
    requires expiry.TimerFires? && Handled(path[1], expiry, path[2]) && expiry.readOk
    requires end.PipeReady? && Handled(path[2], end, path[3]) && Gather(end.results).last.EndOfFile?
    ensures !path[2].c.completed && path[2].p.waited == Some(status)
    ensures path[3].c.completed
    ensures path[3].p.acts[|path[3].p.acts| - 1] == Called(if CleanExit(status) then 1 else 0)
  {
    assert TimedOut(path[1], true, path[2]);
    assert PipeRead(path[2], end.results, path[3]);
  }

  // Appending to the record.

  lemma AddOther(live: set<int>, registered: set<int>, fds: set<int>, acts: seq<Act>, a: Act)
    requires FdsSound(live, registered, fds, acts) && (a.Waited? || a.Killed? || a.Called?)
    ensures FdsSound(live, registered, fds, acts + [a])
  {
    InOrderMore(acts, a);
  }

  lemma InOrderMore(acts: seq<Act>, a: Act)
    requires ClosedInOrder(acts)
    requires forall i :: 0 <= i < |acts| && acts[i].Close? ==> !About(a, acts[i].fd)
    requires a.Close? ==> (Register(a.fd) in acts ==> Deregister(a.fd) in acts)
    ensures ClosedInOrder(acts + [a])
  {
    var more := acts + [a];
    forall i | 0 <= i < |more| && more[i].Close?
      ensures Register(more[i].fd) in more[..i] ==> Deregister(more[i].fd) in more[..i]
      ensures forall j :: i < j < |more| ==> !About(more[j], more[i].fd)
    {
      if i < |acts| { assert more[..i] == acts[..i]; } else { assert more[..i] == acts; }
    }
  }

  lemma AddRegister(live: set<int>, registered: set<int>, fds: set<int>, acts: seq<Act>, fd: int)
    requires FdsSound(live, registered, fds, acts) && fd in live
    ensures FdsSound(live, registered + {fd}, fds, acts + [Register(fd)])
  {
    InOrderMore(acts, Register(fd));
  }

  lemma AddDeregister(live: set<int>, registered: set<int>, fds: set<int>, acts: seq<Act>, fd: int)
    requires FdsSound(live, registered, fds, acts) && fd in registered
    ensures FdsSound(live, registered - {fd}, fds, acts + [Deregister(fd)])
  {
    InOrderMore(acts, Deregister(fd));
    assert Deregister(fd) in acts + [Deregister(fd)];
  }

  lemma AddClose(live: set<int>, registered: set<int>, fds: set<int>, acts: seq<Act>, fd: int)
    requires FdsSound(live, registered, fds, acts) && fd in live && fd !in registered
    ensures FdsSound(live - {fd}, registered, fds, acts + [Close(fd)])
  {
    InOrderMore(acts, Close(fd));
  }

  lemma AddFd(live: set<int>, registered: set<int>, fds: set<int>, acts: seq<Act>, fd: int)
    requires FdsSound(live, registered, fds, acts) && fd !in fds
    ensures FdsSound(live + {fd}, registered, fds + {fd}, acts)
  {
  }

  lemma AddUncalled(acts: seq<Act>, a: Act)
    requires Uncalled(acts) && !a.Called?
    ensures Uncalled(acts + [a])
  {
  }

  lemma AddNoWait(acts: seq<Act>, waited: Option<nat>, a: Act)
    requires WaitsAre(acts, waited) && !a.Waited?
    ensures WaitsAre(acts + [a], waited)
  {
    if waited.Some? { assert Waited(waited.value) in acts; }
  }

  lemma AddWait(acts: seq<Act>, status: nat)
    requires WaitsAre(acts, None)
    ensures WaitsAre(acts + [Waited(status)], Some(status))
  {
    assert (acts + [Waited(status)])[|acts|] == Waited(status);
  }

  class Validation {
    var c: Context
    var k: Kernel
    ghost var p: Past

    ghost predicate Valid()
      reads this
    {
      Sound(c, k, p) && StatusKnown(c) && Racing()
    }

    /** The validation is over and has been reported, or neither. */
    ghost predicate Racing()
      reads this
    {
      if c.completed then Finished(c, k, p) else Uncalled(p.acts) && c.attached
    }

    ghost function Seen(): (v: View)
      reads this
    {
      View(c, k, p)
    }

    constructor ()
      ensures Valid() && !c.completed && k == Kernel(NoChild, {}) && p == Past([], {}, None, None, [])
      ensures c == Context(-1, -1, -1, true, [], false, false, false, 0, false)
    {
      c := Context(-1, -1, -1, true, [], false, false, false, 0, false);
      k := Kernel(NoChild, {});
      p := Past([], {}, None, None, []);
    }

    /** `reap_child`; `fate` is how a child that has to be waited for ends. */
    method ReapChild(blocking: bool, wantStatus: bool, fate: nat) returns (r: int)
      requires Sound(c, k, p) && Uncalled(p.acts)
      modifies this
      ensures Sound(c, k, p) && Uncalled(p.acts)
      ensures c == old(c).(reaped := c.reaped, status := c.status, statusValid := c.statusValid)
      ensures k == old(k).(child := k.child) && p.fds == old(p).fds && p.received == old(p).received
      ensures Open(c) == Open(old(c)) && (forall a :: a in old(p).acts ==> a in p.acts)
      ensures old(p).died.Some? ==> p.died == old(p).died
      ensures c.childPid <= 0 ==> r == -1 && c == old(c) && k == old(k) && p == old(p)
      ensures c.childPid > 0 && old(c).reaped ==> r == c.childPid && c == old(c) && k == old(k) && p == old(p)
      ensures c.childPid > 0 && !old(c).reaped ==>
                && (r == 0 <==> old(k).child.Alive? && !blocking)
                && (r == 0 ==> c == old(c) && k == old(k) && p == old(p))
                && (r == -1 <==> old(k).child.Gone?) && (r == -1 ==> p == old(p))
                && (r != 0 ==> c.reaped && k.child.Gone?)
                && (r != 0 && r != -1 ==> r == c.childPid && p.waited.Some? && (wantStatus ==> c.statusValid))
      ensures Unreaped(old(c)) && (old(k).child.Zombie? || (old(k).child.Alive? && blocking)) ==>
                var status := if old(k).child.Zombie? then old(k).child.status else fate;
                && p == old(p).(acts := old(p).acts + [Waited(status)], waited := Some(status), died := Some(status))
                && k == old(k).(child := Gone)
                && c == if wantStatus then old(c).(reaped := true, status := status, statusValid := true)
                        else old(c).(reaped := true)
      ensures old(p).acts <= p.acts
    {
      hide FdsSound, WaitsAre, Uncalled, OutputSound;
      if c.childPid <= 0 { return -1; }
      if c.reaped { return c.childPid; }
      if k.child.Alive? {
        if !blocking { return 0; }
        k := k.(child := Zombie(fate));
        p := p.(died := Some(fate));
      }
      if k.child.Gone? {
        c := c.(reaped := true);
        return -1;
      }
      var status := k.child.status;
      AddOther(Open(c), k.registered, p.fds, p.acts, Waited(status));
      AddWait(p.acts, status);
      AddUncalled(p.acts, Waited(status));
      p := p.(acts := p.acts + [Waited(status)], waited := Some(status));
      k := k.(child := Gone);
      if wantStatus { c := c.(status := status, statusValid := true); }
      c := c.(reaped := true);
      r := c.childPid;
    }

    /** `reactor_remove_fd`. */
    method Remove(fd: int)
      requires Sound(c, k, p) && Uncalled(p.acts)
      modifies this`k, this`p
      ensures Sound(c, k, p) && Uncalled(p.acts)
      ensures k == old(k).(registered := old(k).registered - {fd}) && p == old(p).(acts := p.acts)
      ensures old(p).acts <= p.acts
    {
      hide FdsSound, WaitsAre, Uncalled, OutputSound;
      if fd !in k.registered {
        assert k.registered - {fd} == k.registered;
        return;
      }
      AddDeregister(Open(c), k.registered, p.fds, p.acts, fd);
      AddNoWait(p.acts, p.waited, Deregister(fd));
      AddUncalled(p.acts, Deregister(fd));
      p := p.(acts := p.acts + [Deregister(fd)]);
      k := k.(registered := k.registered - {fd});
    }

    /** Closes the pipe if it is open. */
    method ClosePipe()
      requires Sound(c, k, p) && Uncalled(p.acts) && c.pipeFd !in k.registered
      modifies this`c, this`p
      ensures Sound(c, k, p) && Uncalled(p.acts) && c == old(c).(pipeFd := -1) && p == old(p).(acts := p.acts)
      ensures old(p).acts <= p.acts
    {
      hide FdsSound, WaitsAre, Uncalled, OutputSound;
      if c.pipeFd < 0 { return; }
      AddClose(Open(c), k.registered, p.fds, p.acts, c.pipeFd);
      AddNoWait(p.acts, p.waited, Close(c.pipeFd));
      AddUncalled(p.acts, Close(c.pipeFd));
      ghost var open := Open(c) - {c.pipeFd};
      p := p.(acts := p.acts + [Close(c.pipeFd)]);
      c := c.(pipeFd := -1);
      assert Open(c) == open;
    }

    /** Closes the timer if it is open. */
    method CloseTimer()
      requires Sound(c, k, p) && Uncalled(p.acts) && c.timerFd !in k.registered
      modifies this`c, this`p
      ensures Sound(c, k, p) && Uncalled(p.acts) && c == old(c).(timerFd := -1) && p == old(p).(acts := p.acts)
      ensures old(p).acts <= p.acts
    {
      hide FdsSound, WaitsAre, Uncalled, OutputSound;
      if c.timerFd < 0 { return; }
      AddClose(Open(c), k.registered, p.fds, p.acts, c.timerFd);
      AddNoWait(p.acts, p.waited, Close(c.timerFd));
      AddUncalled(p.acts, Close(c.timerFd));
      ghost var open := Open(c) - {c.timerFd};
      p := p.(acts := p.acts + [Close(c.timerFd)]);
      c := c.(timerFd := -1);
      assert Open(c) == open;
    }

    method Kill()
      requires Sound(c, k, p) && Uncalled(p.acts)
      modifies this`p
      ensures Sound(c, k, p) && Uncalled(p.acts) && p == old(p).(acts := old(p).acts + [Killed])
    {
      hide FdsSound, WaitsAre, Uncalled, OutputSound;
      AddOther(Open(c), k.registered, p.fds, p.acts, Killed);
      AddNoWait(p.acts, p.waited, Killed);
      AddUncalled(p.acts, Killed);
      p := p.(acts := p.acts + [Killed]);
    }

    /** Both descriptors leave the reactor, then both are closed. */
    method ReleaseFds()
      requires Sound(c, k, p) && Uncalled(p.acts) && c.attached
      modifies this
      ensures Sound(c, k, p) && Uncalled(p.acts) && Open(c) == {}
      ensures c == old(c).(pipeFd := -1, timerFd := -1)
      ensures k == old(k).(registered := {}) && p == old(p).(acts := p.acts) && old(p).acts <= p.acts
    {
      NothingElse(c, k, p);
      hide Sound, Uncalled;
      if c.attached {
        if c.pipeFd >= 0 { Remove(c.pipeFd); }
        if c.timerFd >= 0 { Remove(c.timerFd); }
      }
      ClosePipe();
      CloseTimer();
    }

    /** A child that has not been reaped is reaped, by force if it has to be. */
    method ReleaseChild(fate: nat)
      requires Sound(c, k, p) && Uncalled(p.acts) && c.completed && Open(c) == {}
      modifies this
      ensures Sound(c, k, p) && Uncalled(p.acts) && (k.child.Gone? || k.child.NoChild?)
      ensures c == old(c).(childPid := c.childPid, reaped := c.reaped, status := c.status, statusValid := c.statusValid)
      ensures k.registered == old(k).registered && (old(p).died.Some? ==> p.died == old(p).died) && p.fds == old(p).fds
      ensures old(c).reaped ==> p == old(p)
      ensures p.acts == old(p).acts + ReleaseActs(old(c), old(k).child, fate) && p.received == old(p).received
    {
      hide FdsSound, WaitsAre, Uncalled, OutputSound;
      if c.childPid > 0 && !c.reaped {
        var r := ReapChild(false, false, fate);
        if r == 0 {
          Kill();
          var _ := ReapChild(true, false, fate);
        }
        c := c.(childPid := -1);
      }
    }

    /** The caller's callback. */
    method Call(verdict: int)
      requires Sound(c, k, p) && Uncalled(p.acts) && c.completed && Open(c) == {} && k.registered == {}
      requires k.child.Gone? || k.child.NoChild?
      requires verdict == 1 ==> p.died.Some? && CleanExit(p.died.value)
      modifies this`p
      ensures Sound(c, k, p) && Finished(c, k, p) && p == old(p).(acts := old(p).acts + [Called(verdict)])
    {
      hide WaitsAre, OutputSound, ClosedInOrder;
      ghost var acts := p.acts;
      AddOther(Open(c), k.registered, p.fds, p.acts, Called(verdict));
      AddNoWait(p.acts, p.waited, Called(verdict));
      p := p.(acts := p.acts + [Called(verdict)]);
      assert p.acts[..|p.acts| - 1] == acts;
    }

    /**
     `validate_cleanup`: the first call releases everything and reports the verdict; every other one, also from
     inside the callback (`reentry` times), does nothing.
     */
    method Cleanup(verdict: int, fate: nat, reentry: nat)
      requires Sound(c, k, p) && Racing() && (c.completed ==> StatusKnown(c))
      requires verdict == 1 && !c.completed ==> p.died.Some? && CleanExit(p.died.value)
      modifies this
      ensures Valid() && c.completed
      ensures old(c).completed ==> c == old(c) && k == old(k) && p == old(p)
      ensures !old(c).completed ==> Ends(old(Seen()), verdict, Seen())
      ensures !old(c).completed && Unreaped(old(c)) && old(k).child.Alive? ==> Since(old(p).acts, Killed, p.acts)
      ensures p.received == old(p).received
      ensures p.fds == old(p).fds && (old(p).died.Some? ==> p.died == old(p).died)
      ensures old(c).reaped ==> p.waited == old(p).waited
      decreases reentry
    {
      hide Sound, Uncalled, Finished, Ends, Since;
      if c.completed { return; }
      Finish(verdict, fate);
      if reentry > 0 { Cleanup(-1, fate, reentry - 1); }
    }

    /** The one cleanup that takes effect. */
    method Finish(verdict: int, fate: nat)
      requires Sound(c, k, p) && Uncalled(p.acts) && c.attached && !c.completed
      requires verdict == 1 ==> p.died.Some? && CleanExit(p.died.value)
      modifies this
      ensures Sound(c, k, p) && Finished(c, k, p) && c.completed && Ends(old(Seen()), verdict, Seen())
      ensures Unreaped(old(c)) && old(k).child.Alive? ==> Since(old(p).acts, Killed, p.acts)
      ensures p.received == old(p).received && p.fds == old(p).fds
      ensures old(p).died.Some? ==> p.died == old(p).died
      ensures old(c).reaped ==> p.waited == old(p).waited
    {
      hide FdsSound, WaitsAre, Uncalled, OutputSound;
      hide Finished, Ends, Since;
      ghost var before := Seen();
      c := c.(completed := true);
      ReleaseFds();
      ghost var mid := p.acts;
      ReleaseChild(fate);
      c := c.(attached := false);
      Call(verdict);
      EndsBy(before, mid, ReleaseActs(before.c, before.k.child, fate), verdict, Seen());
    }

    /** Copies what fits of a chunk of the child's output. */
    method Append(bytes: seq<byte>)
      requires Valid() && !c.completed
      modifies this`c, this`p
      ensures Valid() && p == old(p).(received := old(p).received + bytes)
      ensures c == old(c).(output := Kept(p.received), truncated := |p.received| >= OUTPUT_SIZE)
    {
      hide FdsSound, WaitsAre, Uncalled;
      var room := OUTPUT_SIZE - 1 - |c.output|;
      var copied := if |bytes| < room then |bytes| else room;
      p := p.(received := p.received + bytes);
      c := c.(output := c.output + bytes[..copied], truncated := c.truncated || copied < |bytes|);
    }

    /** `validate_io_cb` on the results that its reads will have; after those the read would block. */
    method IoCallback(results: seq<ReadResult>, fate: nat, reentry: nat)
      requires Valid()
      modifies this
      ensures Valid()
      ensures old(c).completed ==> c == old(c) && k == old(k) && p == old(p)
      ensures !old(c).completed ==> PipeRead(old(Seen()), results, Seen())
      ensures p.fds == old(p).fds
    {
      hide Sound, Uncalled, Finished, Ends, Settled, Gather, Kept;
      if c.completed { return; }
      ghost var before, all := Seen(), Gather(results);
      SameOutput(c, k, p);
      GatherNone(results);
      var i := 0;
      while i < |results|
        invariant 0 <= i <= |results| && Valid() && !c.completed && p.fds == old(p).fds
        invariant c == before.c.(output := Kept(p.received), truncated := |p.received| >= OUTPUT_SIZE)
        invariant k == before.k && p == before.p.(received := p.received)
        invariant Gather(results[i..]).last == all.last
        invariant p.received + Gather(results[i..]).bytes == before.p.received + all.bytes
      {
        GatherAt(results, i);
        assert p.received + [] == p.received;
        match results[i] {
          case Data(bytes) =>
            ghost var rest := Gather(results[i + 1..]).bytes;
            assert p.received + (bytes + rest) == p.received + bytes + rest;
            Append(bytes);
          case Interrupted =>
          case WouldBlock => return;
          case EndOfFile =>
            AtEndOfFile(fate, reentry);
            return;
          case ReadError =>
            Cleanup(0, fate, reentry);
            return;
        }
        i := i + 1;
      }
      assert p.received + [] == p.received;
    }

    /** The child has closed its output: its exit decides, unless it is still running. */
    method AtEndOfFile(fate: nat, reentry: nat)
      requires Valid() && !c.completed
      modifies this
      ensures Valid() && p.fds == old(p).fds
      ensures Settled(old(Seen()), Seen())
    {
      hide FdsSound, WaitsAre, Uncalled, OutputSound, Finished, CleanExit;
      var wr := ReapChild(false, true, fate);
      if wr == 0 { return; }
      if wr < 0 {
        Cleanup(0, fate, reentry);
        return;
      }
      var status := if c.statusValid then c.status else 0;
      Cleanup(if CleanExit(status) then 1 else 0, fate, reentry);
    }

    /** `validate_timeout_cb`: a child that is still running is killed, and the verdict is negative. */
    method TimeoutCallback(readOk: bool, killFails: bool, fate: nat, reentry: nat)
      requires Valid()
      modifies this
      ensures Valid() && p.fds == old(p).fds
      ensures old(c).completed ==> c == old(c) && k == old(k) && p == old(p)
      ensures !old(c).completed ==> TimedOut(old(Seen()), readOk, Seen())
    {
      hide FdsSound, WaitsAre, Uncalled, OutputSound, Finished, Ends, Since;
      if c.completed { return; }
      if !readOk { Cleanup(0, fate, reentry); return; }
      ghost var before := Seen();
      var wr := ReapChild(false, true, fate);
      if wr == c.childPid { return; }
      Kill();
      SinceIn(before.p.acts, before.p.acts, Killed, [Killed]);
      ghost var killed := p.acts;
      if !killFails { var _ := ReapChild(true, true, fate); }
      ghost var mid := Seen();
      Cleanup(0, fate, reentry);
      EndsFrom(before, mid, 0, Seen());
      SinceLater(before.p.acts, Killed, killed, p.acts);
    }

    /** `async_validate_cleanup`. */
    method ManualCleanup(fate: nat, reentry: nat)
      requires Valid()
      modifies this
      ensures Valid() && c.completed && p.fds == old(p).fds
      ensures old(c).completed ==> c == old(c) && k == old(k) && p == old(p)
      ensures !old(c).completed ==> Ends(old(Seen()), -1, Seen())
    {
      hide Sound, Finished, Uncalled;
      Cleanup(-1, fate, reentry);
    }

    /** The child ends by itself. */
    method ChildExits(status: nat)
      requires Valid() && k.child.Alive?
      modifies this`k, this`p
      ensures Valid() && k == old(k).(child := Zombie(status)) && p == old(p).(died := Some(status))
    {
      hide FdsSound, WaitsAre, Uncalled, OutputSound;
      p := p.(died := Some(status));
      k := k.(child := Zombie(status));
    }

    /** Somebody else in the process waits for the dead child. */
    method ChildStolen()
      requires Valid() && k.child.Zombie?
      modifies this`k
      ensures Valid() && k == old(k).(child := Gone)
    {
      hide FdsSound, WaitsAre, Uncalled, OutputSound;
      k := k.(child := Gone);
    }

    /** A new descriptor of this process for the validation. */
    method Obtain(fd: int, timer: bool)
      requires Sound(c, k, p) && fd >= 0 && fd !in p.fds && if timer then c.timerFd == -1 else c.pipeFd == -1
      modifies this`c, this`p
      ensures Sound(c, k, p) && p == old(p).(fds := old(p).fds + {fd})
      ensures c == if timer then old(c).(timerFd := fd) else old(c).(pipeFd := fd)
    {
      hide FdsSound, WaitsAre, OutputSound;
      ghost var open := Open(c);
      NothingElse(c, k, p);
      AddFd(open, k.registered, p.fds, p.acts, fd);
      p := p.(fds := p.fds + {fd});
      c := if timer then c.(timerFd := fd) else c.(pipeFd := fd);
      assert Open(c) == open + {fd};
    }

    /** The write end of the pipe belongs to the child: this process closes its copy at once. */
    method CloseWriteEnd(fd: int)
      requires Sound(c, k, p) && fd >= 0 && fd !in p.fds && Uncalled(p.acts)
      modifies this`p
      ensures Sound(c, k, p) && Uncalled(p.acts)
      ensures p == old(p).(fds := old(p).fds + {fd}, acts := old(p).acts + [Close(fd)])
    {
      NothingElse(c, k, p);
      hide FdsSound, WaitsAre, Uncalled, OutputSound;
      ghost var open := Open(c);
      AddFd(open, k.registered, p.fds, p.acts, fd);
      AddClose(open + {fd}, k.registered, p.fds + {fd}, p.acts, fd);
      AddNoWait(p.acts, p.waited, Close(fd));
      AddUncalled(p.acts, Close(fd));
      assert open + {fd} - {fd} == open;
      p := p.(fds := p.fds + {fd}, acts := p.acts + [Close(fd)]);
    }

    /** `reactor_add_fd`. */
    method Add(fd: int, accepted: bool) returns (r: int)
      requires Sound(c, k, p) && fd in Open(c) && Uncalled(p.acts)
      modifies this`k, this`p
      ensures Sound(c, k, p) && Uncalled(p.acts) && r == if accepted then 0 else -1
      ensures k == if accepted then old(k).(registered := old(k).registered + {fd}) else old(k)
      ensures p == old(p).(acts := p.acts)
    {
      hide FdsSound, WaitsAre, Uncalled, OutputSound;
      if !accepted { return -1; }
      AddRegister(Open(c), k.registered, p.fds, p.acts, fd);
      AddNoWait(p.acts, p.waited, Register(fd));
      AddUncalled(p.acts, Register(fd));
      p := p.(acts := p.acts + [Register(fd)]);
      k := k.(registered := k.registered + {fd});
      r := 0;
    }

    /** The failure exit of `async_validate_config`. */
    method GiveUp(fate: nat)
      requires Sound(c, k, p) && Uncalled(p.acts) && k.registered == {} && !c.completed && c.attached
      modifies this
      ensures Valid() && !c.completed && Open(c) == {} && k.registered == {} && p.fds == old(p).fds
      ensures k.child.Gone? || k.child.NoChild?
      ensures old(p).acts <= p.acts && (old(c).childPid > 0 ==> Since(old(p).acts, Killed, p.acts))
    {
      hide FdsSound, WaitsAre, Uncalled, OutputSound;
      ClosePipe();
      CloseTimer();
      if c.childPid > 0 {
        ghost var acts, mid := old(p).acts, p.acts;
        Kill();
        SinceIn(acts, mid, Killed, [Killed]);
        var _ := ReapChild(true, false, fate);
        SinceLater(acts, Killed, mid + [Killed], p.acts);
        c := c.(childPid := -1);
      }
    }

    /**
     `async_validate_config`: either everything is in place, or nothing is left behind and the callback will not run
     by itself.
     */
    method Start(pipeFd: int, writeFd: int, timerFd: int, pid: int, pipeOk: bool, forkOk: bool, timerOk: bool,
                 armed: bool, addPipe: bool, addTimer: bool, fate: nat) returns (r: int)
      requires Valid() && !c.completed && k == Kernel(NoChild, {}) && p == Past([], {}, None, None, [])
      requires c == Context(-1, -1, -1, true, [], false, false, false, 0, false)
      requires pipeFd >= 0 && writeFd >= 0 && timerFd >= 0 && pid > 0
      requires pipeFd != writeFd && pipeFd != timerFd && writeFd != timerFd
      modifies this
      ensures Valid() && !c.completed
      ensures r == if pipeOk && forkOk && timerOk && armed && addPipe && addTimer then 0 else -1
      ensures r == 0 ==> c.pipeFd == pipeFd && c.timerFd == timerFd && k == Kernel(Alive, {pipeFd, timerFd})
      ensures r == 0 ==> c.childPid == pid
      ensures r == -1 ==> Open(c) == {} && k.registered == {} && (k.child.Gone? || k.child.NoChild?)
      ensures p.fds == if !pipeOk then {}
                       else if forkOk && timerOk then {pipeFd, writeFd, timerFd} else {pipeFd, writeFd}
      ensures pipeOk ==> Close(writeFd) in p.acts
    {
      hide FdsSound, WaitsAre, Uncalled, OutputSound;
      if !pipeOk { return -1; }
      Obtain(pipeFd, false);
      if !forkOk {
        ClosePipe();
        CloseWriteEnd(writeFd);
        EndClosed(c, k, p, writeFd);
        return -1;
      }
      CloseWriteEnd(writeFd);
      k := k.(child := Alive);
      c := c.(childPid := pid);
      r := Watch(timerFd, timerOk, armed, addPipe, addTimer, fate);
      EndClosed(c, k, p, writeFd);
    }

    /** The part of `async_validate_config` behind the fork. */
    method Watch(timerFd: int, timerOk: bool, armed: bool, addPipe: bool, addTimer: bool, fate: nat) returns (r: int)
      requires Sound(c, k, p) && Uncalled(p.acts) && k.registered == {} && !c.completed && c.attached
      requires c.pipeFd >= 0 && c.timerFd == -1 && timerFd >= 0 && timerFd !in p.fds && c.childPid > 0 && !c.reaped
      requires k.child.Alive?
      modifies this
      ensures Valid() && !c.completed
      ensures r == if timerOk && armed && addPipe && addTimer then 0 else -1
      ensures r == 0 ==> c == old(c).(timerFd := timerFd) && k == old(k).(registered := {c.pipeFd, timerFd})
      ensures r == -1 ==> Open(c) == {} && k.registered == {} && (k.child.Gone? || k.child.NoChild?)
      ensures p.fds == old(p).fds + if timerOk then {timerFd} else {}
    {
      hide FdsSound, WaitsAre, Uncalled, OutputSound;
      if !timerOk {
        GiveUp(fate);
        return -1;
      }
      OpenKnown(c, k, p);
      Obtain(timerFd, true);
      if !armed {
        CloseTimer();
        GiveUp(fate);
        return -1;
      }
      r := Add(c.pipeFd, addPipe);
      if r != 0 {
        GiveUp(fate);
        return;
      }
      r := Add(c.timerFd, addTimer);
      if r != 0 {
        Remove(c.pipeFd);
        GiveUp(fate);
        return;
      }
      assert k.registered == {c.pipeFd, timerFd};
    }

    /** One event of the race; callbacks of descriptors that are not in the reactor do not run. */
    method Handle(e: Event)
      requires Valid()
      modifies this
      ensures Valid() && p.fds == old(p).fds
      ensures Handled(old(Seen()), e, Seen())
    {
      hide Sound, Uncalled, Finished;
      match e
      case PipeReady(results, fate, reentry) =>
        if c.pipeFd in k.registered { IoCallback(results, fate, reentry); }
      case TimerFires(readOk, killFails, fate, reentry) =>
        if c.timerFd in k.registered { TimeoutCallback(readOk, killFails, fate, reentry); }
      case Manual(fate, reentry) => ManualCleanup(fate, reentry);
      case Exits(status) => if k.child.Alive? { ChildExits(status); }
      case Stolen => if k.child.Zombie? { ChildStolen(); }
    }

    /**
     Any order of events: the callback runs at most once and last, each descriptor leaves the reactor before it is
     closed and is closed once, the child is waited for at most once, and a positive verdict is true.
     */
    method Race(events: seq<Event>) returns (ghost path: seq<View>)
      requires Valid()
      modifies this
      ensures |path| == |events| + 1 && path[0] == old(Seen()) && path[|events|] == Seen()
      ensures forall i :: 0 <= i < |events| ==> Handled(path[i], events[i], path[i + 1])
      ensures Valid() && p.fds == old(p).fds
      ensures c.completed <==> exists i :: 0 <= i < |p.acts| && p.acts[i].Called?
      ensures forall i, j :: 0 <= i < j < |p.acts| && p.acts[i].Called? ==> !p.acts[j].Called?
      ensures c.completed ==> forall fd :: fd in p.fds ==> Close(fd) in p.acts
      ensures ClosedInOrder(p.acts)
      ensures forall i, j :: 0 <= i < j < |p.acts| && p.acts[i].Waited? ==> !p.acts[j].Waited?
      ensures Called(1) in p.acts ==> p.died.Some? && CleanExit(p.died.value)
    {
      hide Sound, Uncalled, Finished, Handled;
      path := [Seen()];
      for i := 0 to |events|
        invariant Valid() && p.fds == old(p).fds
        invariant |path| == i + 1 && path[0] == old(Seen()) && path[i] == Seen()
        invariant forall j :: 0 <= j < i ==> Handled(path[j], events[j], path[j + 1])
      {
        Handle(events[i]);
        path := path + [Seen()];
      }
      RaceFacts(c, k, p);
    }
  }

  /** What the invariant says about the record. */
  lemma RaceFacts(c: Context, k: Kernel, p: Past)
    requires Sound(c, k, p) && if c.completed then Finished(c, k, p) else Uncalled(p.acts)
    ensures c.completed <==> exists i :: 0 <= i < |p.acts| && p.acts[i].Called?
    ensures forall i, j :: 0 <= i < j < |p.acts| && p.acts[i].Called? ==> !p.acts[j].Called?
    ensures c.completed ==> forall fd :: fd in p.fds ==> Close(fd) in p.acts
    ensures ClosedInOrder(p.acts)
    ensures forall i, j :: 0 <= i < j < |p.acts| && p.acts[i].Waited? ==> !p.acts[j].Waited?
    ensures Called(1) in p.acts ==> p.died.Some? && CleanExit(p.died.value)
  {
    if c.completed {
      var n := |p.acts| - 1;
      assert p.acts == p.acts[..n] + [p.acts[n]];
      assert forall i :: 0 <= i < n ==> p.acts[..n][i] == p.acts[i];
    }
  }

  lemma SameOutput(c: Context, k: Kernel, p: Past)
    requires Sound(c, k, p)
    ensures c == c.(output := Kept(p.received), truncated := |p.received| >= OUTPUT_SIZE)
  {
  }

  lemma OpenKnown(c: Context, k: Kernel, p: Past)
    requires Sound(c, k, p) && c.pipeFd >= 0
    ensures c.pipeFd in p.fds
  {
  }

  /** A descriptor that was opened for the validation and is not in the context has been closed. */
  lemma EndClosed(c: Context, k: Kernel, p: Past, fd: int)
    requires Sound(c, k, p) && fd in p.fds && fd !in Open(c)
    ensures Close(fd) in p.acts
  {
  }

  lemma NothingElse(c: Context, k: Kernel, p: Past)
    requires Sound(c, k, p)
    ensures k.registered <= Open(c) <= p.fds
  {
  }
}
